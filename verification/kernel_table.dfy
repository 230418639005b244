/**
 The kernel's process table as the C code changes it: PCBs in an array, lists spliced
 through pointers to pointers. Every method does to the table what the function of
 KernelSteps of the same purpose does to its value.
 */
module KernelTable {
  import opened Basics
  import opened KernelState
  import opened KernelSteps
  import opened KernelInv
  import opened KernelTurn
  import opened KernelRuns
  import opened KernelTheorems
  import opened KernelLinks

  class Table {
    const pcbTable: array<Pcb>
    var readyQueue: int
    var sleepList: int
    var idle: int
    var nextPid: nat
    var pidMap: map<nat, nat>
    ghost var q: Lists
    ghost var left: map<nat, nat>

    ghost function Memory(): Mem
      reads this, pcbTable
    {
      Mem(pcbTable[..], readyQueue, sleepList)
    }

    /** Memory spells out the lists. */
    ghost predicate Good()
      reads this, pcbTable
    {
      && pcbTable.Length == N
      && Wired(Memory(), q) && Apart(q)
      && Deltas(pcbTable[..], Of(q, SleepList), left)
    }

    /** The table as a value, while process `cur` runs. */
    ghost function View(cur: int): Sys
      reads this, pcbTable
    {
      Sys(Procs(pcbTable[..]), q, left, pidMap, nextPid, idle, cur)
    }

    // ----------------------------------------------------------------
    // Cells and fields

    /** What a cell points to. */
    method Read(c: Cell) returns (v: int)
      requires pcbTable.Length == N && IsCell(Memory(), c)
      ensures v == Load(Memory(), c)
    {
      match c
      case HeadOf(ReadyQueue) => v := readyQueue;
      case HeadOf(SleepList) => v := sleepList;
      case HeadOf(Senders(d)) => v := pcbTable[d].senders;
      case HeadOf(Receivers(d)) => v := pcbTable[d].receivers;
      case NextOf(i) => v := pcbTable[i].next;
    }

    /** Makes a cell point to v. */
    method Write(c: Cell, v: int)
      requires pcbTable.Length == N && IsCell(Memory(), c)
      modifies this`readyQueue, this`sleepList, pcbTable
      ensures Memory() == Store(old(Memory()), c, v)
    {
      match c
      case HeadOf(ReadyQueue) => readyQueue := v;
      case HeadOf(SleepList) => sleepList := v;
      case HeadOf(Senders(d)) => pcbTable[d] := pcbTable[d].(senders := v);
      case HeadOf(Receivers(d)) => pcbTable[d] := pcbTable[d].(receivers := v);
      case NextOf(i) => pcbTable[i] := pcbTable[i].(next := v);
    }

    /** Change fields of a PCB other than its links. */
    method Set(x: nat, p: Proc)
      requires Good() && x < N
      modifies pcbTable
      ensures Good() && Procs(pcbTable[..]) == Procs(old(pcbTable[..]))[x := p]
      ensures forall y :: 0 <= y < N ==> pcbTable[y].next == old(pcbTable[y].next)
    {
      ghost var m := Memory();
      WiredUpdate(m, q, x, pcbTable[x].(proc := p));
      pcbTable[x] := pcbTable[x].(proc := p);
      assert Memory() == m.(t := m.t[x := m.t[x].(proc := p)]);
      DeltasSame(m.t, pcbTable[..], Of(q, SleepList), left);
      hide Wired, Apart, Deltas;
    }

    // ----------------------------------------------------------------
    // Lists

    /** Walks to the last cell of a list. */
    method FindEnd(h: Head, ghost l: seq<nat>) returns (end: Cell)
      requires pcbTable.Length == N && Chain(Memory(), h, l) && IsCell(Memory(), HeadOf(h))
      ensures end == CellAt(h, l, |l|) && IsCell(Memory(), end)
    {
      ghost var k := 0;
      end := HeadOf(h);
      var v := Read(end);
      assert v == At(l, 0);
      while v != NIL
        invariant 0 <= k <= |l| && end == CellAt(h, l, k) && IsCell(Memory(), end) && v == At(l, k)
        decreases |l| - k
      {
        end := NextOf(v);
        v := Read(end);
        k := k + 1;
        assert v == At(l, k);
      }
    }

    /** ready(): to the end of the ready queue. */
    method Ready(x: nat)
      requires Good() && x < N && Free(q, x)
      modifies this`readyQueue, this`sleepList, this`q, pcbTable
      ensures Good() && q == old(q)[ReadyQueue := Of(old(q), ReadyQueue) + [x]]
      ensures Procs(pcbTable[..]) == Procs(old(pcbTable[..]))[x := old(pcbTable[x].proc).(state := READY)]
      ensures forall y: nat :: y < N && y != x && Free(old(q), y) ==> pcbTable[y].next == old(pcbTable[y].next)
    {
      ghost var m, l := Memory(), Of(q, ReadyQueue);
      assert Chain(m, ReadyQueue, l);
      ReadyAnywhere(x, l);
      Appended(m, ReadyQueue, CellAt(ReadyQueue, l, |l|), x, READY);
    }

    /** ready(), wherever the process is: what it does to memory. */
    method ReadyAnywhere(x: nat, ghost l: seq<nat>)
      requires pcbTable.Length == N && x < N && Chain(Memory(), ReadyQueue, l)
      modifies this`readyQueue, this`sleepList, pcbTable
      ensures Memory() == Readied(old(Memory()), l, x, old(pcbTable[x].proc).(state := READY))
      ensures IsCell(old(Memory()), CellAt(ReadyQueue, l, |l|))
    {
      LastCell(Memory(), l);
      var end := FindEnd(ReadyQueue, l);
      Write(end, x);
      pcbTable[x] := pcbTable[x].(next := NIL, proc := pcbTable[x].proc.(state := READY));
    }

    /** send_queue_insert(), recv_queue_insert(): these rely on the link of x being NULL. */
    method QueueInsert(h: Head, x: nat, state: State)
      requires Good() && x < N && Free(q, x) && pcbTable[x].next == NIL
      requires (h.Senders? || h.Receivers?) && h.of < N
      modifies this`readyQueue, this`sleepList, this`q, pcbTable
      ensures Good() && q == old(q)[h := Of(old(q), h) + [x]]
      ensures Procs(pcbTable[..]) == Procs(old(pcbTable[..]))[x := old(pcbTable[x].proc).(state := state)]
    {
      ghost var m := Memory();
      assert Chain(m, h, Of(q, h));
      var end := FindEnd(h, Of(q, h));
      Write(end, x);
      pcbTable[x] := pcbTable[x].(proc := pcbTable[x].proc.(state := state));
      NextStays(m, q, h, x);
      Appended(m, h, end, x, state);
    }

    /** The lists after x was written to the last cell of a list. */
    ghost method Appended(m: Mem, h: Head, end: Cell, x: nat, state: State)
      requires Wired(m, q) && Apart(q) && Free(q, x) && x < N && IsCell(m, HeadOf(h)) && h != SleepList
      requires pcbTable.Length == N
      requires end == CellAt(h, Of(q, h), |Of(q, h)|) && IsCell(m, end) && Deltas(m.t, Of(q, SleepList), left)
      requires var m1 := Store(m, end, x);
        Memory() == m1.(t := m1.t[x := m1.t[x].(next := NIL, proc := m1.t[x].proc.(state := state))])
      modifies this`q
      ensures Good() && q == old(q)[h := Of(old(q), h) + [x]]
      ensures Procs(pcbTable[..]) == Procs(m.t)[x := m.t[x].proc.(state := state)]
      ensures forall y: nat :: y < N && y != x && Free(old(q), y) ==> pcbTable[y].next == m.t[y].next
    {
      var l := Of(q, h);
      WiredAppend(m, q, h, x, m.t[x].proc.(state := state));
      ApartInsert(q, h, |l|, x);
      assert l[..|l|] + [x] + l[|l|..] == l + [x];
      assert |l| > 0 ==> l[|l| - 1] in l;
      q := q[h := l + [x]];
      DeltasSame(m.t, pcbTable[..], Of(q, SleepList), left);
      hide Wired, Apart, Deltas;
    }

    /** The cell that points to the first process with this pid, and that process; NIL if it is not in the list. */
    method FindPid(h: Head, pid: nat) returns (cell: Cell, r: int, ghost k: nat)
      requires Good() && IsCell(Memory(), HeadOf(h))
      ensures k <= |Of(q, h)| && cell == CellAt(h, Of(q, h), k) && IsCell(Memory(), cell) && r == At(Of(q, h), k)
      ensures forall i :: 0 <= i < k ==> Of(q, h)[i] < N && pcbTable[Of(q, h)[i]].proc.pid != pid
      ensures r != NIL ==> 0 <= r < N && pcbTable[r].proc.pid == pid
    {
      ghost var l := Of(q, h);
      assert Chain(Memory(), h, l);
      cell, k := HeadOf(h), 0;
      r := Read(cell);
      assert r == At(l, 0);
      while r != NIL && pcbTable[r].proc.pid != pid
        invariant 0 <= k <= |l| && cell == CellAt(h, l, k) && IsCell(Memory(), cell) && r == At(l, k)
        invariant forall i :: 0 <= i < k ==> pcbTable[l[i]].proc.pid != pid
        decreases |l| - k
      {
        cell := NextOf(r);
        r := Read(cell);
        k := k + 1;
        assert r == At(l, k);
      }
    }

    /** Splice the process with this pid out of a list, if it is there. */
    method QueueRemove(h: Head, pid: nat) returns (r: int)
      requires Good() && IsCell(Memory(), HeadOf(h)) && h != SleepList
      modifies this`readyQueue, this`sleepList, this`q, pcbTable
      ensures Good() && Procs(pcbTable[..]) == Procs(old(pcbTable[..]))
      ensures r == NIL ==> Memory() == old(Memory()) && q == old(q)
      ensures r == NIL ==> forall x :: x in Of(q, h) ==> x < N && pcbTable[x].proc.pid != pid
      ensures r != NIL ==>
        && 0 <= r < N && r in Of(old(q), h) && pcbTable[r].proc.pid == pid
        && q == old(q)[h := RemoveOne(Of(old(q), h), r)]
    {
      var cell;
      ghost var k;
      cell, r, k := FindPid(h, pid);
      if r != NIL {
        RemoveAt(h, k, cell, r);
      }
    }

    /** Makes the cell point past the process it points to. */
    method Unlink(h: Head, ghost k: nat, cell: Cell, x: nat)
      requires pcbTable.Length == N && Wired(Memory(), q) && Apart(q)
      requires k < |Of(q, h)| && cell == CellAt(h, Of(q, h), k) && x == Of(q, h)[k] && IsCell(Memory(), cell)
      modifies this`readyQueue, this`sleepList, this`q, pcbTable
      ensures Wired(Memory(), q) && Apart(q) && Procs(pcbTable[..]) == Procs(old(pcbTable[..]))
      ensures forall i :: 0 <= i < N ==> pcbTable[i].delta == old(pcbTable[i].delta)
      ensures x in Of(old(q), h) && q == old(q)[h := RemoveOne(Of(old(q), h), x)] && Free(q, x)
      ensures x < N
    {
      ghost var m, l := Memory(), Of(q, h);
      WiredRemove(m, q, h, k);
      Write(cell, pcbTable[x].next);
      assert x in l;
      ApartRemove(q, h, x);
      q := q[h := RemoveOne(l, x)];
      hide Wired, Apart;
    }

    method RemoveAt(h: Head, ghost k: nat, cell: Cell, x: nat)
      requires Good() && k < |Of(q, h)| && cell == CellAt(h, Of(q, h), k) && x == Of(q, h)[k] && h != SleepList
      requires IsCell(Memory(), cell)
      modifies this`readyQueue, this`sleepList, this`q, pcbTable
      ensures Good() && Procs(pcbTable[..]) == Procs(old(pcbTable[..]))
      ensures x in Of(old(q), h) && q == old(q)[h := RemoveOne(Of(old(q), h), x)] && Free(q, x)
      ensures x < N
    {
      ghost var t := pcbTable[..];
      Unlink(h, k, cell, x);
      DeltasSame(t, pcbTable[..], Of(q, SleepList), left);
    }

    /** Takes the first process off a list. */
    method PopFirst(h: Head) returns (x: nat)
      requires Good() && Of(q, h) != [] && h != SleepList
      modifies this`readyQueue, this`sleepList, this`q, pcbTable
      ensures Good() && Procs(pcbTable[..]) == Procs(old(pcbTable[..]))
      ensures x < N && x == Of(old(q), h)[0] && q == old(q)[h := Of(old(q), h)[1..]] && Free(q, x)
    {
      ghost var l := Of(q, h);
      assert Chain(Memory(), h, l) && CellAt(h, l, 0) == HeadOf(h) && At(l, 0) == l[0];
      var v := Read(HeadOf(h));
      RemoveAt(h, 0, HeadOf(h), v);
      x := v;
    }

    // ----------------------------------------------------------------
    // Messages

    /** send_receive_transfer() */
    method TransferData(a: nat, d: nat)
      requires Good() && a < N && d < N
      modifies pcbTable
      ensures Good() && forall cur :: View(cur) == Transfer(old(View(cur)), a, d)
    {
      var src, dest := pcbTable[a].proc, pcbTable[d].proc;
      var n := Min(|src.buf|, |dest.buf|);
      Set(d, dest.(irc := n, partner := src.pid, buf := src.buf[..n] + dest.buf[n..]));
      Set(a, pcbTable[a].proc.(irc := n));
      hide Good;
    }

    /** Gives a process its return value and makes it ready. */
    method ReturnTo(x: nat, irc: int)
      requires Good() && x < N && Free(q, x)
      modifies this`readyQueue, this`sleepList, this`q, pcbTable
      ensures Good() && forall cur :: View(cur) == Return(old(View(cur)), x, irc)
      ensures forall y: nat :: y < N && y != x && Free(old(q), y) ==> pcbTable[y].next == old(pcbTable[y].next)
    {
      Set(x, pcbTable[x].proc.(irc := irc));
      Ready(x);
      hide Good, Of;
    }

    /** A match: transfer, then ready the running process and the one that waited. */
    method MeetWith(a: nat, d: nat, p: nat, other: nat)
      requires Good() && a < N && d < N && p < N && other < N && p != other && Free(q, p) && Free(q, other)
      modifies this`readyQueue, this`sleepList, this`q, pcbTable
      ensures Good() && View(p) == Meet(old(View(p)), a, d, other)
    {
      hide Wired, Apart, Deltas, Of, Free, Transfer, KernelSteps.Ready;
      TransferData(a, d);
      TransferQueues(old(View(p)), a, d);
      BothReady(p, other);
    }

    /** The running process p, in no list and with its link cleared; everything in place. */
    ghost predicate Running(p: nat)
      reads this, pcbTable
    {
      Good() && p < N && Steady(View(p), {}, p) && pcbTable[p].next == NIL
    }

    /** send() */
    method Send(p: nat, dest: nat, buf: seq<byte>)
      requires Running(p)
      modifies this`readyQueue, this`sleepList, this`q, pcbTable
      ensures Good() && View(p) == SendTo(old(View(p)), dest, buf)
    {
      ghost var s0 := View(p);
      ArgsSteady(s0, dest, buf);
      RunnerFree(s0);
      Set(p, pcbTable[p].proc.(partner := dest, buf := buf));
      assert View(p) == Args(s0, dest, buf);
      hide Good, Steady, Free, Of, Meet;
      if pcbTable[p].proc.pid == dest {
        ReturnTo(p, SYS_SR_SELF);
      } else if dest !in pidMap {
        ReturnTo(p, SYS_SR_NO_PID);
      } else {
        SendLive(p, dest);
      }
    }

    method SendLive(p: nat, dest: nat)
      requires Running(p) && dest in pidMap && pcbTable[p].proc.pid != dest
      modifies this`readyQueue, this`sleepList, this`q, pcbTable
      ensures Good()
      ensures var s := old(View(p));
        var d := s.pids[dest];
        d < N && View(p) ==
          if d in Of(s.q, Receivers(p)) then Meet(Leave(s, Receivers(p), d), p, d, d)
          else if s.procs[d].state.RECEIVING? && s.procs[d].partner == 0 then Meet(s, p, d, d)
          else Wait(s, p, SENDING, Senders(d))
    {
      hide Steady, Meet, Wired, Apart, Deltas;
      var d := pidMap[dest];
      RunnerFree(View(p));
      ReceiverFree(View(p), p, d, dest);
      NotRemoved(q, Receivers(p), d, p);
      var r := QueueRemove(Receivers(p), dest);
      if r != NIL {
        hide Good;
        MeetWith(p, r, p, r);
      } else {
        SendOrWait(p, d);
      }
    }

    /** The receiver is not queued for p: it may receive from any. */
    method SendOrWait(p: nat, d: nat)
      requires Good() && p < N && d < N && p != d && Free(q, p) && pcbTable[p].next == NIL
      requires pcbTable[d].proc.state.RECEIVING? && pcbTable[d].proc.partner == 0 ==> Free(q, d)
      modifies this`readyQueue, this`sleepList, this`q, pcbTable
      ensures Good()
      ensures var s := old(View(p));
        View(p) == if s.procs[d].state.RECEIVING? && s.procs[d].partner == 0 then Meet(s, p, d, d)
                   else Wait(s, p, SENDING, Senders(d))
    {
      hide Meet, Wired, Apart, Deltas, Free;
      if pcbTable[d].proc.state.RECEIVING? && pcbTable[d].proc.partner == 0 {
        hide Good;
        MeetWith(p, d, p, d);
      } else {
        QueueInsert(Senders(d), p, SENDING);
      }
    }

    /** receive() */
    method Recv(p: nat, src: nat, buf: seq<byte>)
      requires Running(p)
      modifies this`readyQueue, this`sleepList, this`q, pcbTable
      ensures Good() && Handleable(old(View(p))) && View(p) == Receive(old(View(p)), src, buf)
    {
      ghost var s0 := View(p);
      InvHandleable(s0);
      ArgsSteady(s0, src, buf);
      RunnerFree(s0);
      Set(p, pcbTable[p].proc.(partner := src, buf := buf));
      assert View(p) == Args(s0, src, buf);
      hide Good, Steady, Free, Of, Meet;
      if pcbTable[p].proc.pid == src {
        ReturnTo(p, SYS_SR_SELF);
      } else if src != 0 && src !in pidMap {
        ReturnTo(p, SYS_SR_NO_PID);
      } else if src != 0 {
        RecvFrom(p, src);
      } else {
        RecvAny(p);
      }
    }

    method RecvFrom(p: nat, src: nat)
      requires Running(p) && src in pidMap && pcbTable[p].proc.pid != src
      modifies this`readyQueue, this`sleepList, this`q, pcbTable
      ensures Good()
      ensures var s := old(View(p));
        var a := s.pids[src];
        a < N && View(p) ==
          if a in Of(s.q, Senders(p)) then Meet(Leave(s, Senders(p), a), a, p, a)
          else Wait(s, p, RECEIVING, Receivers(a))
    {
      hide Steady, Meet, Wired, Apart, Deltas;
      var a := pidMap[src];
      RunnerFree(View(p));
      SenderFree(View(p), p, a, src);
      NotRemoved(q, Senders(p), a, p);
      var r := QueueRemove(Senders(p), src);
      if r != NIL {
        hide Good, Free;
        MeetWith(r, p, p, r);
      } else {
        QueueInsert(Receivers(a), p, RECEIVING);
      }
    }

    method RecvAny(p: nat)
      requires Running(p)
      modifies this`readyQueue, this`sleepList, this`q, pcbTable
      ensures Good()
      ensures var s := old(View(p));
        var l := Of(s.q, Senders(p));
        && (l == [] ==> View(p) == KernelSteps.Put(s, p, s.procs[p].(state := RECEIVING)))
        && (l != [] ==> l[0] < N && View(p) == Meet(Leave(s, Senders(p), l[0]), l[0], p, l[0]))
    {
      hide Steady, Wired, Apart, Deltas, Transfer, KernelSteps.Ready;
      ghost var s, l := View(p), Of(q, Senders(p));
      RunnerFree(s);
      FirstSender(s, p);
      HeadIs(Memory(), q, Senders(p));
      if pcbTable[p].senders != NIL {
        var a := pcbTable[p].senders;
        NotRemoved(q, Senders(p), a, p);
        TransferData(a, p);
        var a' := PopFirst(Senders(p));
        TransferLeaves(s, Senders(p), a, p);
        hide Good, Free;
        BothReady(p, a);
      } else {
        Set(p, pcbTable[p].proc.(state := RECEIVING));
      }
    }

    method BothReady(p: nat, a: nat)
      requires Good() && p < N && a < N && p != a && Free(q, p) && Free(q, a)
      modifies this`readyQueue, this`sleepList, this`q, pcbTable
      ensures Good() && View(p) == KernelSteps.Ready(KernelSteps.Ready(old(View(p)), p), a)
    {
      hide Good, Free, Of;
      StillFree(q, ReadyQueue, p, a);
      Ready(p);
      Ready(a);
    }

    // ----------------------------------------------------------------
    // Stopping

    /** Make everyone in a list return with SYS_SR_NO_PID. */
    method UnblockAll(h: Head, ghost cur: int)
      requires Good() && (h.Senders? || h.Receivers?) && h.of < N
      modifies this`readyQueue, this`sleepList, this`q, pcbTable
      ensures Good() && (forall x :: x in Of(old(q), h) ==> x < N) && View(cur) == Unblock(old(View(cur)), h)
    {
      ghost var s0 := View(cur);
      MembersBelow(Memory(), q);
      HeadIs(Memory(), q, h);
      var v := Read(HeadOf(h));
      while v != NIL
        invariant Good() && (forall x :: x in Of(q, h) ==> x < N) && Unblock(View(cur), h) == Unblock(s0, h)
        invariant v == At(Of(q, h), 0)
        decreases |Of(q, h)|
      {
        hide Unblock, Wired, Apart, Deltas;
        UnblockStep(View(cur), h);
        UnblockFirst(h, cur);
        HeadIs(Memory(), q, h);
        v := Read(HeadOf(h));
      }
    }

    method UnblockFirst(h: Head, ghost cur: int)
      requires Good() && (h.Senders? || h.Receivers?) && Of(q, h) != []
      modifies this`readyQueue, this`sleepList, this`q, pcbTable
      ensures Good()
      ensures var s := old(View(cur));
        var l := Of(s.q, h);
        l[0] < N && View(cur) == Return(s.(q := s.q[h := l[1..]]), l[0], SYS_SR_NO_PID)
    {
      var x := PopFirst(h);
      hide Good, Free;
      ReturnTo(x, SYS_SR_NO_PID);
    }

    /** cleanup(), without devices and the stack. */
    method Cleanup(p: nat)
      requires Running(p)
      modifies this`readyQueue, this`sleepList, this`q, this`pidMap, pcbTable
      ensures Good() && Handleable(old(View(p))) && View(p) == Exit(old(View(p)))
    {
      hide Steady, Unblock, Wired, Apart, Deltas, Handleable, Free;
      ghost var s := View(p);
      ghost var s2 := Unblocked(s);
      UnblockAll(Senders(p), p);
      UnblockAll(Receivers(p), p);
      assert View(p) == s2;
      Clear(p, STOPPED);
      pidMap := pidMap - {pcbTable[p].proc.pid};
    }

    /** Clears the link of a process and sets its state. */
    method Clear(p: nat, state: State)
      requires Good() && p < N && Free(q, p)
      modifies pcbTable
      ensures Good() && pcbTable[p].next == NIL
      ensures Procs(pcbTable[..]) == Procs(old(pcbTable[..]))[p := old(pcbTable[p].proc).(state := state)]
    {
      ghost var m := Memory();
      ghost var u := pcbTable[p].(next := NIL, proc := pcbTable[p].proc.(state := state));
      WiredUpdate(m, q, p, u);
      pcbTable[p] := pcbTable[p].(next := NIL, proc := pcbTable[p].proc.(state := state));
      assert Memory() == m.(t := m.t[p := u]);
      DeltasSame(m.t, pcbTable[..], Of(q, SleepList), left);
      hide Wired, Apart, Deltas;
    }

    // ----------------------------------------------------------------
    // Sleeping

    /** The cell of the first sleeper that wakes later than d ticks from now, and what is left of d there. */
    method FindLater(d: nat) returns (next: Cell, delta: nat, ghost k: nat)
      requires Good() && Sleeping(Of(q, SleepList), left)
      ensures k <= |Of(q, SleepList)| && next == CellAt(SleepList, Of(q, SleepList), k) && IsCell(Memory(), next)
      ensures (forall x :: x in Of(q, SleepList) ==> x in left) && k == Rank(Of(q, SleepList), left, d)
      ensures delta + Before(Of(q, SleepList), left, k) == d
    {
      ghost var l := Of(q, SleepList);
      assert Chain(Memory(), SleepList, l);
      next, delta, k := HeadOf(SleepList), d, 0;
      var v := Read(next);
      assert v == At(l, 0);
      while v != NIL && pcbTable[v].delta <= delta
        invariant 0 <= k <= |l| && next == CellAt(SleepList, l, k) && IsCell(Memory(), next) && v == At(l, k)
        invariant delta + Before(l, left, k) == d
        invariant forall i :: 0 <= i < k ==> left[l[i]] <= d
        decreases |l| - k
      {
        assert left[l[k]] == Before(l, left, k) + pcbTable[v].delta && Before(l, left, k + 1) == left[l[k]];
        delta := delta - pcbTable[v].delta;
        next := NextOf(v);
        v := Read(next);
        k := k + 1;
        assert v == At(l, k);
      }
      assert k < |l| ==> left[l[k]] == Before(l, left, k) + pcbTable[v].delta;
      RankIs(l, left, d, k);
    }

    /** sleep() */
    method SleepFor(p: nat, ms: nat)
      requires Running(p)
      modifies this`readyQueue, this`sleepList, this`q, this`left, pcbTable
      ensures Good() && Handleable(old(View(p))) && View(p) == FallAsleep(old(View(p)), ms)
    {
      hide Handleable, Wired, Apart, Deltas, Free, Placed, Sane;
      ghost var s := View(p);
      InvHandleable(s);
      RunnerFree(s);
      var delta := ms / 10 + if ms % 10 != 0 then 1 else 0;
      if delta != 0 {
        InsertSleeper(p, delta);
      } else {
        Ready(p);
      }
    }

    /** Links a sleeper in before another, which then counts from it. */
    method LinkBefore(p: nat, v: int, delta: nat)
      requires pcbTable.Length == N && p < N
      requires v == NIL || (0 <= v < N && v != p && pcbTable[v].delta >= delta)
      modifies pcbTable
      ensures Memory() == Linked1(old(Memory()), p, v, delta)
    {
      pcbTable[p] := pcbTable[p].(next := v, delta := delta);
      if v != NIL {
        pcbTable[v] := pcbTable[v].(delta := pcbTable[v].delta - delta);
      }
    }

    method InsertSleeper(p: nat, d: nat)
      requires Good() && p < N && Free(q, p) && Sleeping(Of(q, SleepList), left) && d > 0
      modifies this`readyQueue, this`sleepList, this`q, this`left, pcbTable
      ensures Good() && forall x :: x in Of(old(q), SleepList) ==> x in old(left)
      ensures var l := Of(old(q), SleepList);
        var k := Rank(l, old(left), d);
        q == old(q)[SleepList := l[..k] + [p] + l[k..]] && left == old(left)[p := d]
      ensures Procs(pcbTable[..]) == Procs(old(pcbTable[..]))[p := old(pcbTable[p].proc).(state := SLEEPING)]
    {
      ghost var l, m := Of(q, SleepList), Memory();
      var next, delta;
      ghost var k;
      next, delta, k := FindLater(d);
      assert Chain(m, SleepList, l);
      var v := Read(next);
      assert v == At(l, k);
      SleeperStored(m, q, left, k, p, d, delta);
      hide Wired, Apart, Deltas, Sleeping, Rank, Of, Free;
      LinkBefore(p, v, delta);
      Write(next, p);
      pcbTable[p] := pcbTable[p].(proc := pcbTable[p].proc.(state := SLEEPING));
      assert Memory() == WithSleeper(m, next, p, v, delta) by {
        hide Store, Linked1;
      }
      hide WithSleeper;
      q, left := q[SleepList := l[..k] + [p] + l[k..]], left[p := d];
    }

    /**
     tick(): one tick less for the first sleeper, and wake those at the front with none left.
     As written, the loop looks at the first sleeper without asking whether there is one; the
     result says whether it does so when there is none, which is where the model stops.
     */
    method TickOnce(asWritten: bool, ghost cur: int) returns (nullRead: bool)
      requires Good() && Sleeping(Of(q, SleepList), left)
      modifies this`readyQueue, this`sleepList, this`q, this`left, pcbTable
      ensures Good() && (forall x :: x in Of(old(q), SleepList) ==> x < N)
      ensures View(cur) == Tick(old(View(cur)))
      ensures nullRead <==> asWritten && AllDue(old(left))
    {
      hide Wired, Apart, Deltas, Wake, Sleeping, AllDue;
      ghost var s := View(cur);
      MembersBelow(Memory(), q);
      ListsDistinct(q);
      TickEmptiesIff(s);
      HeadIs(Memory(), q, SleepList);
      CountFirst();
      ghost var s1 := View(cur);
      HeadIs(Memory(), q, SleepList);
      nullRead := false;
      var going := sleepList != NIL;
      if !going {
        LastWake(View(cur), pcbTable[..]);
      }
      while going
        invariant Good() && (forall x :: x in Of(q, SleepList) ==> x < N) && Wake(View(cur)) == Wake(s1)
        invariant sleepList == At(Of(q, SleepList), 0) && sleepList < N
        invariant !going ==> Wake(View(cur)) == View(cur)
        invariant nullRead <==> asWritten && !going && sleepList == NIL && Of(s.q, SleepList) != []
        invariant going ==> Of(s.q, SleepList) != []
        decreases |Of(q, SleepList)|, going
      {
        if sleepList == NIL {
          nullRead := asWritten;
          going := false;
          LastWake(View(cur), pcbTable[..]);
        } else if pcbTable[sleepList].delta != 0 {
          going := false;
          LastWake(View(cur), pcbTable[..]);
        } else {
          FirstHasNone(Of(q, SleepList), left, pcbTable[..]);
          WakeUnfold(View(cur));
          WakeFirst(cur);
          HeadIs(Memory(), q, SleepList);
        }
      }
    }

    /** Takes one tick off the first sleeper, if there is one. */
    method CountFirst()
      requires Good() && Sleeping(Of(q, SleepList), left)
      modifies this`left, pcbTable
      ensures Good() && left == CountDown(old(left)) && Procs(pcbTable[..]) == Procs(old(pcbTable[..]))
    {
      ghost var m := Memory();
      HeadIs(m, q, SleepList);
      DeltasCountDown(m.t, Of(q, SleepList), left);
      if sleepList != NIL {
        pcbTable[sleepList] := pcbTable[sleepList].(delta := pcbTable[sleepList].delta - 1);
        WiredUpdate(m, q, sleepList, pcbTable[sleepList]);
        assert Memory() == m.(t := m.t[sleepList := pcbTable[sleepList]]);
      }
      left := CountDown(left);
      assert Procs(pcbTable[..]) == Procs(m.t);
      hide Wired, Apart, Deltas;
    }

    method WakeFirst(ghost cur: int)
      requires Good() && Of(q, SleepList) != [] && sleepList == Of(q, SleepList)[0]
      requires sleepList as nat in left && left[sleepList] == 0
      modifies this`readyQueue, this`sleepList, this`q, this`left, pcbTable
      ensures Good()
      ensures var s := old(View(cur));
        var l := Of(s.q, SleepList);
        l[0] < N && View(cur) == Return(s.(q := s.q[SleepList := l[1..]], left := s.left - {l[0]}), l[0], 0)
    {
      ghost var l, t := Of(q, SleepList), pcbTable[..];
      var x := sleepList;
      HeadCell(Memory(), q, SleepList);
      DeltasRest(t, l, left);
      Unlink(SleepList, 0, HeadOf(SleepList), x);
      left := left - {x as nat};
      DeltasSame(t, pcbTable[..], l[1..], left);
      hide Free, Wired, Apart, Deltas;
      ReturnTo(x, 0);
    }

    // ----------------------------------------------------------------
    // Creating

    /** getNextPid() */
    method GetNextPid() returns (pid: nat)
      requires nextPid < WORD && |Busy(pidMap)| < WORD
      modifies this`nextPid
      ensures pid == NextFree(old(nextPid), Busy(old(pidMap))) && nextPid == (pid + 1) % WORD
    {
      hide NextFree, Nth, Busy;
      ghost var n, busy := nextPid, Busy(pidMap);
      ghost var k := NextFreeIs(n, busy);
      ghost var j := 0;
      BusyIs(pidMap);
      NthStart(n);
      while nextPid == 0 || nextPid in pidMap
        invariant 0 <= j <= k && nextPid == Nth(n, j) && nextPid < WORD
        decreases k - j
      {
        NthNext(n, j);
        NthIsWord(n, j + 1);
        nextPid := (nextPid + 1) % WORD;
        j := j + 1;
      }
      assert nextPid !in busy;
      pid := nextPid;
      nextPid := (nextPid + 1) % WORD;
    }

    /** The first stopped entry, or N. */
    method FindStopped() returns (i: nat)
      requires Good()
      ensures |Procs(pcbTable[..])| == N && i <= N && i == Unused(Procs(pcbTable[..]), 0)
    {
      i := 0;
      while i < N && !pcbTable[i].proc.state.STOPPED?
        invariant i <= N && Unused(Procs(pcbTable[..]), i) == Unused(Procs(pcbTable[..]), 0)
      {
        i := i + 1;
      }
    }

    /** create(), without the stack and its context frame. */
    method Create(parent: nat, memory: bool, ghost cur: int) returns (pid: int)
      requires Good() && Steady(View(cur), {}, cur)
      modifies this`readyQueue, this`sleepList, this`q, this`nextPid, this`pidMap, pcbTable
      ensures Good() && View(cur) == Spawn(old(View(cur)), parent, memory).0
      ensures pid == Spawn(old(View(cur)), parent, memory).1
    {
      hide Steady, Good, Spawn, NextFree, Unused, Busy, Free, KernelSteps.Ready;
      ghost var s := View(cur);
      var i := FindStopped();
      SpawnIs(s, parent, memory, i);
      if !memory || i == N {
        return SYSERR;
      }
      SpawnFacts(s, cur, i);
      pid := NewPcb(i, parent, cur);
    }

    /** Give entry i a pid, reset it and make it ready. */
    method NewPcb(i: nat, parent: nat, ghost cur: int) returns (pid: nat)
      requires Good() && i < N && Free(q, i) && Of(q, Senders(i)) == [] && Of(q, Receivers(i)) == []
      requires nextPid < WORD && |Busy(pidMap)| < WORD
      modifies this`readyQueue, this`sleepList, this`q, this`nextPid, this`pidMap, pcbTable
      ensures Good()
      ensures var s := old(View(cur));
        && pid == NextFree(s.nextPid, Busy(s.pids))
        && View(cur) == KernelSteps.Ready(KernelSteps.Put(s, i, Proc(pid, parent, READY, 0, 0, [], 0, 0))
             .(pids := s.pids[pid := i], nextPid := (pid + 1) % WORD), i)
      ensures forall y: nat :: y < N && y != i && Free(old(q), y) ==> pcbTable[y].next == old(pcbTable[y].next)
    {
      hide Wired, Apart, Deltas, Free, NextFree, Busy;
      pid := GetNextPid();
      pidMap := pidMap[pid := i];
      ResetPcb(i, Proc(pid, parent, STOPPED, 0, 0, [], 0, 0));
      Ready(i);
    }

    /** Every field of a stopped PCB afresh. */
    method ResetPcb(i: nat, p: Proc)
      requires Good() && i < N && Free(q, i) && Of(q, Senders(i)) == [] && Of(q, Receivers(i)) == []
      modifies pcbTable
      ensures Good() && Procs(pcbTable[..]) == Procs(old(pcbTable[..]))[i := p]
      ensures forall y :: 0 <= y < N && y != i ==> pcbTable[y].next == old(pcbTable[y].next)
    {
      ghost var m := Memory();
      HeadIs(m, q, Senders(i));
      HeadIs(m, q, Receivers(i));
      WiredUpdate(m, q, i, Pcb(p, NIL, NIL, NIL, 0));
      pcbTable[i] := Pcb(p, NIL, NIL, NIL, 0);
      assert Memory() == m.(t := m.t[i := Pcb(p, NIL, NIL, NIL, 0)]);
      DeltasOther(m.t, pcbTable[..], Of(q, SleepList), left, i);
      hide Wired, Apart, Deltas;
    }

    // ----------------------------------------------------------------
    // Signals

    /**
     signal() and its return code. If the target is blocked in a list and takes the signal, the
     lists are no longer apart: the one it was in ends there and runs on into the end of the
     ready queue.
     */
    method Kill(p: nat, pid: nat, sig: int)
      requires Running(p)
      modifies this`readyQueue, this`sleepList, this`q, pcbTable
      ensures Handleable(old(View(p))) && pcbTable.Length == N
      ensures !Trapped(old(View(p)), pid, sig) ==> Good() && View(p) == Signal(old(View(p)), pid, sig)
      ensures Trapped(old(View(p)), pid, sig) ==>
        Procs(pcbTable[..]) == Signal(old(View(p)), pid, sig).procs && q == old(q) &&
        var t := old(pidMap[pid]); TailsShared(Memory(), q, PlaceOf(old(View(p)).procs[t], old(pidMap)), t, p)
    {
      ghost var s := View(p);
      InvHandleable(s);
      RunnerFree(s);
      hide Takes, Record;
      if sig < 0 || sig >= 32 {
        hide Good, Steady, Free;
        ReturnTo(p, -12);
      } else if pid !in pidMap {
        hide Good, Steady, Free;
        ReturnTo(p, -33);
      } else {
        var t := pidMap[pid];
        if Takes(pcbTable[t].proc, sig) && Queued(pcbTable[t].proc) {
          KillQueued(p, t, sig);
        } else {
          if Takes(pcbTable[t].proc, sig) {
            TargetFree(s, pid);
            hide Good, Steady, Free;
            Deliver(p, t, sig);
          }
          hide Good, Steady, Free;
          ReturnTo(p, 0);
        }
      }
    }

    lemma OpenRunning(p: nat)
      requires Running(p)
      ensures Good() && pcbTable.Length == N && p < N && Steady(View(p), {}, p) && |View(p).procs| == N
      ensures Wired(Memory(), q) && Apart(q) && Chain(Memory(), ReadyQueue, Of(q, ReadyQueue))
    {
    }

    /** The same, for a target that is still in a list: it is made ready without leaving it. */
    method KillQueued(p: nat, t: nat, sig: nat)
      requires Running(p) && t < N && sig < 32 && Queued(pcbTable[t].proc)
      modifies this`readyQueue, this`sleepList, pcbTable
      ensures pcbTable.Length == N && TailsShared(Memory(), q, PlaceOf(old(View(p)).procs[t], pidMap), t, p)
      ensures Procs(pcbTable[..]) == Return(SignalTo(old(View(p)), t, sig), p, 0).procs
    {
      hide Running, Good, Steady, Record, Wired, Apart, Deltas, Chain, Free, Queued, Return, SignalTo, UpTo, Distinct;
      hide PlaceOf, TailsShared, TwoReadied;
      ghost var m, s := Memory(), View(p);
      OpenRunning(p);
      ghost var i := QueuedAt(s, t);
      QueuedOutside(s, t);
      var t', p' := Record(pcbTable[t].proc, sig).(irc := -129), pcbTable[p].proc.(irc := 0);
      QueuedProcs(s, t, sig);
      ReturnBoth(t, t', p, p', Of(q, ReadyQueue));
      SharedAfter(m, Memory(), s, i, t, t', p, p');
    }

    method ReturnBoth(t: nat, t': Proc, p: nat, p': Proc, ghost r: seq<nat>)
      requires pcbTable.Length == N && t < N && p < N && t != p
      requires Chain(Memory(), ReadyQueue, r) && Distinct(r) && t !in r
      modifies this`readyQueue, this`sleepList, pcbTable
      ensures TwoReadied(old(Memory()), Memory(), r, t, t', t'.(state := READY), p, p', p'.(state := READY))
      ensures Procs(pcbTable[..]) == Procs(old(pcbTable[..]))[t := t'.(state := READY)][p := p'.(state := READY)]
    {
      hide Chain, Readied, SetProc, Distinct;
      ghost var m := Memory();
      ReturnAnywhere(t, t', r);
      ReadiedQueue(SetProc(m, t, t'), r, t, t'.(state := READY));
      ReturnAnywhere(p, p', r + [t]);
    }

    /** Gives a process its return value and makes it ready, wherever it is: what that does to memory. */
    method ReturnAnywhere(x: nat, x': Proc, ghost l: seq<nat>)
      requires pcbTable.Length == N && x < N && Chain(Memory(), ReadyQueue, l)
      modifies this`readyQueue, this`sleepList, pcbTable
      ensures Chain(SetProc(old(Memory()), x, x'), ReadyQueue, l)
      ensures Memory() == Readied(SetProc(old(Memory()), x, x'), l, x, x'.(state := READY))
      ensures Procs(pcbTable[..]) == Procs(old(pcbTable[..]))[x := x'.(state := READY)]
    {
      ghost var m := Memory();
      SetProcKeeps(m, x, x', ReadyQueue, l);
      pcbTable[x] := pcbTable[x].(proc := x');
      assert Memory() == SetProc(m, x, x');
      ReadyAnywhere(x, l);
    }

    /** Record the signal and make the process ready if it is blocked. */
    method Deliver(p: nat, t: nat, sig: nat)
      requires Good() && t < N && p < N && sig < 32 && Free(q, p) && !Queued(pcbTable[t].proc)
      requires pcbTable[p].proc.state.RUNNING?
      requires !pcbTable[t].proc.state.RUNNING? && !pcbTable[t].proc.state.READY? ==> Free(q, t)
      modifies this`readyQueue, this`sleepList, this`q, pcbTable
      ensures Good() && View(p) == SignalTo(old(View(p)), t, sig) && Free(q, p)
    {
      hide Record, Wired, Apart, Deltas;
      Set(t, Record(pcbTable[t].proc, sig));
      var state := pcbTable[t].proc.state;
      if state.STOPPED? || state.RUNNING? || state.READY? {
      } else {
        StillFree(q, ReadyQueue, t, p);
        hide Free;
        ReturnTo(t, if state.WAITING? then sig else -129);
      }
    }

    // ----------------------------------------------------------------
    // Choosing the next process

    /** next() */
    method Next() returns (r: int)
      requires Good()
      modifies this`readyQueue, this`sleepList, this`q, pcbTable
      ensures Good() && Procs(pcbTable[..]) == Procs(old(pcbTable[..]))
      ensures r == NIL <==> Of(old(q), ReadyQueue) == []
      ensures r == NIL ==> q == old(q) && Memory() == old(Memory())
      ensures r != NIL ==>
        && 0 <= r < N && r == Of(old(q), ReadyQueue)[0] && q == old(q)[ReadyQueue := Of(old(q), ReadyQueue)[1..]]
        && pcbTable[r].next == NIL && Free(q, r)
    {
      HeadIs(Memory(), q, ReadyQueue);
      MembersBelow(Memory(), q);
      FirstIn(Of(q, ReadyQueue));
      r := readyQueue;
      if r != NIL {
        var x := PopFirst(ReadyQueue);
        ghost var t := pcbTable[..];
        Clear(x, pcbTable[x].proc.state);
        assert Procs(t)[x := t[x].proc] == Procs(t);
      }
    }

    /** The end of a turn: the first ready process, but idle only if no other is ready. */
    method Choose() returns (p: int)
      requires Good() && Steady(View(NIL), {}, NIL) && -1 <= idle < N
      modifies this`readyQueue, this`sleepList, this`q, pcbTable
      ensures Good() && (forall x :: x in Of(old(q), ReadyQueue) ==> x < N)
      ensures View(p) == Select(old(View(NIL)))
      ensures p != NIL ==> 0 <= p < N && pcbTable[p].next == NIL
    {
      hide Steady, Wired, Apart, Deltas, Free, Select, KernelSteps.Ready;
      ghost var s, l := View(NIL), Of(q, ReadyQueue);
      ReadyBelow(s);
      SelectIs(s);
      p := Next();
      if idle != NIL && p == idle {
        p := AfterIdle(l);
      }
      if p != NIL {
        Set(p, pcbTable[p].proc.(state := RUNNING));
      }
    }

    /** The idle process was first: take the next one, if there is one, and ready idle again. */
    method AfterIdle(ghost l: seq<nat>) returns (p: int)
      requires Good() && 0 <= idle < N && Free(q, idle) && pcbTable[idle].next == NIL
      requires l != [] && l[0] == idle && Of(q, ReadyQueue) == l[1..] && (|l| >= 2 ==> l[1] != idle)
      modifies this`readyQueue, this`sleepList, this`q, pcbTable
      ensures Good() && 0 <= p < N && pcbTable[p].next == NIL
      ensures |l| == 1 ==> p == idle && View(NIL) == old(View(NIL))
      ensures |l| > 1 ==>
        p == l[1] && View(NIL) == KernelSteps.Ready(old(View(NIL)).(q := old(q)[ReadyQueue := l[2..]]), idle)
    {
      hide Wired, Apart, Deltas;
      assert |l| == 1 ==> l[1..] == [];
      p := Next();
      if p == NIL {
        p := idle;
      } else {
        StillOut(old(q), ReadyQueue, idle);
        assert l[1..][1..] == l[2..];
        assert View(NIL) == old(View(NIL)).(q := old(q)[ReadyQueue := l[2..]]);
        hide Good, Free;
        Ready(idle);
      }
    }

    // ----------------------------------------------------------------
    // Turns

    /** The switch in dispatch() with to_ready. */
    method HandleRequest(p: nat, e: Request)
      requires Running(p) && Enabled(View(p), e)
      modifies this`readyQueue, this`sleepList, this`q, this`left, this`nextPid, this`pidMap, pcbTable
      ensures Good() && Handleable(old(View(p))) && View(p) == Handle(old(View(p)), e)
      ensures e.Keyboard? ==> pcbTable[p].next == NIL
    {
      hide Steady, Good, Handleable, Free, Trapped;
      ghost var s := View(p);
      InvHandleable(s);
      RunnerFree(s);
      match e
      case Create(memory) => CreateChild(p, memory);
      case Yield => Ready(p);
      case Stop => Cleanup(p);
      case Send(dest, buf) => Send(p, dest, buf);
      case Recv(src, buf) => Recv(p, src, buf);
      case Sleep(ms) => SleepFor(p, ms);
      case Timer => Tock(p);
      case Kill(pid, sig) => Kill(p, pid, sig);
      case SigWait => Block(p, WAITING);
      case Read => Block(p, READING);
      case Plain(irc, allowed) => Answer(p, irc, allowed);
      case Keyboard(x, n) => Complete(p, x, n);
    }

    method CreateChild(p: nat, memory: bool)
      requires Running(p)
      modifies this`readyQueue, this`sleepList, this`q, this`nextPid, this`pidMap, pcbTable
      ensures Good()
      ensures var s := old(View(p));
        var (s1, pid) := Spawn(s, s.procs[p].pid, memory);
        View(p) == Return(s1, p, pid)
    {
      hide Steady, Good, Free, Spawn, Return;
      ghost var s := View(p);
      SpawnFree(s, memory);
      var pid := Create(pcbTable[p].proc.pid, memory, p);
      ReturnTo(p, pid);
    }

    /** A timer interrupt: tick(), then the running process is ready again. */
    method Tock(p: nat)
      requires Running(p)
      modifies this`readyQueue, this`sleepList, this`q, this`left, pcbTable
      ensures Good() && Handleable(old(View(p))) && View(p) == KernelSteps.Ready(Tick(old(View(p))), p)
    {
      hide Wired, Apart, Deltas, Free, Tick, Placed, Sane, Handleable;
      InvHandleable(View(p));
      TickFree(View(p));
      var _ := TickOnce(false, p);
      Ready(p);
    }

    method Block(p: nat, state: State)
      requires Good() && p < N
      modifies pcbTable
      ensures Good() && View(p) == KernelSteps.Put(old(View(p)), p, old(View(p)).procs[p].(state := state))
    {
      hide Wired, Apart, Deltas;
      Set(p, pcbTable[p].proc.(state := state));
    }

    method Allow(p: nat, allowed: bv32)
      requires Good() && p < N
      modifies pcbTable
      ensures Good() && View(p) == KernelSteps.Put(old(View(p)), p, old(View(p)).procs[p].(allowed := allowed))
    {
      hide Wired, Apart, Deltas;
      Set(p, pcbTable[p].proc.(allowed := allowed));
    }

    /** A request that ends at once: it may replace the mask, and the process is made ready. */
    method Answer(p: nat, irc: int, allowed: bv32)
      requires Good() && p < N && Free(q, p)
      modifies this`readyQueue, this`sleepList, this`q, pcbTable
      ensures Good()
      ensures View(p) ==
        Return(KernelSteps.Put(old(View(p)), p, old(View(p)).procs[p].(allowed := allowed)), p, irc)
    {
      hide Good, Free, Return;
      Allow(p, allowed);
      ReturnTo(p, irc);
    }

    /** The keyboard interrupt handler finishes a read, if one is pending. */
    method Complete(p: nat, x: nat, n: nat)
      requires Running(p)
      modifies this`readyQueue, this`sleepList, this`q, pcbTable
      ensures Good() && pcbTable[p].next == NIL
      ensures View(p) ==
        if x < N && old(View(p)).procs[x].state.READING? then Return(old(View(p)), x, n) else old(View(p))
    {
      hide Wired, Apart, Deltas, Steady, Free, Return;
      if x < N && pcbTable[x].proc.state.READING? {
        ReaderFree(View(p), x);
        ReturnTo(x, n);
      }
    }

    /** One turn of dispatch(): the request, then the choice of the next process. */
    method TurnOf(p: nat, e: Request) returns (p': int)
      requires Running(p) && Inv(View(p)) && Enabled(View(p), e)
      modifies this`readyQueue, this`sleepList, this`q, this`left, this`nextPid, this`pidMap, pcbTable
      ensures View(p') == Turn(old(View(p)), e) && Inv(View(p'))
      ensures p' >= 0 ==> Running(p')
    {
      hide Handle, Select;
      ghost var s := View(p);
      TurnKeeps(s, e);
      hide Steady, Good, Handleable, Free, Inv;
      HandleRequest(p, e);
      if e.Keyboard? {
        p' := p;
      } else {
        CurIgnored(View(p));
        p' := Choose();
      }
      InvRunning(View(p'));
    }

    /** init_pcb_table() */
    constructor ()
      ensures Good() && View(NIL) == Empty() && fresh(pcbTable)
    {
      pcbTable := new Pcb[N](_ => Pcb(Proc(0, 0, STOPPED, 0, 0, [], 0, 0), NIL, NIL, NIL, 0));
      readyQueue, sleepList, idle, nextPid, pidMap, q, left := NIL, NIL, NIL, 1, map[], map[], map[];
    }

    /** initproc: create the root process and the idle process, and run the first. */
    method Start() returns (p: int)
      requires Good() && View(NIL) == Empty()
      modifies this, pcbTable
      ensures (forall x :: x in Of(Boot().q, ReadyQueue) ==> x < N) && View(p) == Select(Boot()) && Running(p)
      ensures Inv(View(p))
    {
      hide Steady, Good, Free, Select, Inv, Spawn, Empty;
      BootSteps();
      var root := Create(0, true, NIL);
      var pid := Create(0, true, NIL);
      SetIdle(pid);
      p := Choose();
      InvRunning(View(p));
    }

    /** Remembers which entry of the table is the idle process. */
    method SetIdle(pid: int)
      requires Good()
      modifies this`idle
      ensures Good() && View(NIL) == old(View(NIL)).(idle := if pid in pidMap then pidMap[pid] else old(idle))
    {
      hide Wired, Apart, Deltas;
      if pid in pidMap {
        idle := pidMap[pid];
      }
    }
  }

  lemma BootSteps()
    ensures Steady(Empty(), {}, NIL) && Empty().cur == NIL == Empty().idle
    ensures var (s1, root) := Spawn(Empty(), 0, true);
      var (s2, pid) := Spawn(s1, 0, true);
      && Steady(s1, {}, NIL) && s1.cur == NIL && s2.cur == NIL && s2.idle == NIL
      && Boot() == s2.(idle := if pid in s2.pids then s2.pids[pid] else s2.idle)
    ensures Steady(Boot(), {}, NIL) && -1 <= Boot().idle < N && Boot().cur == NIL
    ensures (forall x :: x in Of(Boot().q, ReadyQueue) ==> x < N) && Inv(Select(Boot())) && Select(Boot()).cur >= 0
  {
    EmptySteady();
    SpawnKeeps(Empty(), 0, true);
    var s1 := Spawn(Empty(), 0, true).0;
    SpawnKeeps(s1, 0, true);
    BootInv();
    SteadyLength(Boot());
    hide Steady, Inv, Select;
  }

  lemma SteadyLength(s: Sys)
    requires Steady(s, {}, NIL)
    ensures |s.procs| == N
  {
  }

  /** The transfer does not concern the queues. */
  lemma TransferQueues(s: Sys, a: nat, d: nat)
    requires a < |s.procs| && d < |s.procs|
    ensures Transfer(s, a, d).q == s.q
  {
  }

  lemma TransferLeaves(s: Sys, h: Head, a: nat, d: nat)
    requires a < |s.procs| && d < |s.procs|
    ensures Transfer(Leave(s, h, a), a, d) == Leave(Transfer(s, a, d), h, a) && Transfer(s, a, d).q == s.q
  {
  }

  /** The running process stays out of all lists while a process is created, or the clock ticks. */
  lemma SpawnFree(s: Sys, memory: bool)
    requires Steady(s, {}, s.cur) && s.cur >= 0
    ensures s.cur < |s.procs| && Free(Spawn(s, s.procs[s.cur].pid, memory).0.q, s.cur)
    ensures Spawn(s, s.procs[s.cur].pid, memory).0.cur == s.cur
  {
    SpawnKeeps(s, s.procs[s.cur].pid, memory);
    RunnerFree(Spawn(s, s.procs[s.cur].pid, memory).0);
    hide Steady, Spawn;
  }

  lemma TickFree(s: Sys)
    requires Steady(s, {}, s.cur) && s.cur >= 0
    ensures Handleable(s) && Free(Tick(s).q, s.cur)
  {
    TickKeeps(s);
    RunnerFree(Tick(s));
  }

  lemma ReaderFree(s: Sys, x: nat)
    requires Steady(s, {}, s.cur) && s.cur >= 0 && x < N && s.procs[x].state.READING?
    ensures x != s.cur && Free(s.q, x) && Free(s.q, s.cur)
  {
  }

  /** Which process ran before does not matter when the next is chosen. */
  lemma CurIgnored(s: Sys)
    requires Steady(s, {}, NIL) && IdleReady(s.procs, s.idle)
    ensures Steady(s.(cur := NIL), {}, NIL) && -1 <= s.idle < N
    ensures (forall x :: x in Of(s.q, ReadyQueue) ==> x < N) && Select(s.(cur := NIL)) == Select(s)
  {
    ReadyBelow(s);
  }

  lemma InvRunning(s: Sys)
    requires Inv(s)
    ensures Steady(s, {}, s.cur) && -1 <= s.cur < N
  {
  }

  lemma StillOut(q: Lists, h: Head, x: nat)
    requires Free(q, x) && Of(q, h) != []
    ensures Free(q[h := Of(q, h)[1..]], x)
  {
    var q' := q[h := Of(q, h)[1..]];
    forall g
      ensures x !in Of(q', g)
    {
      assert x !in Of(q, g);
    }
  }

  /** The cases of Select, for a ready queue l. */
  lemma SelectIs(s: Sys)
    requires |s.procs| == N && forall x :: x in Of(s.q, ReadyQueue) ==> x < N
    ensures var l := Of(s.q, ReadyQueue);
      && (l == [] ==> Select(s) == s.(cur := NIL))
      && (l != [] ==> l[0] < N)
      && (l != [] && l[0] != s.idle ==> Select(s) == Run(s.(q := s.q[ReadyQueue := l[1..]]), l[0]))
      && (|l| == 1 && l[0] == s.idle ==> Select(s) == Run(s.(q := s.q[ReadyQueue := l[1..]]), l[0]))
      && (|l| > 1 && l[0] == s.idle ==>
           && l[1] < N
           && Select(s) == Run(KernelSteps.Ready(s.(q := s.q[ReadyQueue := l[1..]][ReadyQueue := l[2..]]), l[0]), l[1]))
  {
    var l := Of(s.q, ReadyQueue);
    FirstIn(l);
    if |l| > 1 {
      assert l[1] in l;
      assert s.q[ReadyQueue := l[1..]][ReadyQueue := l[2..]] == s.q[ReadyQueue := l[2..]];
    }
    assert |l| == 1 ==> l[1..] == [];
  }

  lemma SpawnIs(s: Sys, parent: nat, memory: bool, i: nat)
    requires |s.procs| == N && i == Unused(s.procs, 0)
    ensures i < N ==> s.procs[i].state.STOPPED?
    ensures !memory || i == N ==> Spawn(s, parent, memory) == (s, SYSERR)
    ensures memory && i < N ==>
      var pid := NextFree(s.nextPid, Busy(s.pids));
      Spawn(s, parent, memory) == (KernelSteps.Ready(KernelSteps.Put(s, i, Proc(pid, parent, READY, 0, 0, [], 0, 0))
        .(pids := s.pids[pid := i], nextPid := (pid + 1) % WORD), i), pid)
  {
  }

  lemma BusyIs(pids: map<nat, nat>)
    ensures forall pid: nat :: pid in Busy(pids) <==> pid == 0 || pid in pids
  {
  }

  lemma NthStart(n: nat)
    requires n < WORD
    ensures Nth(n, 0) == n
  {
  }

  lemma NthNext(n: nat, j: nat)
    requires n < WORD
    ensures (Nth(n, j) + 1) % WORD == Nth(n, j + 1)
  {
  }

  /** What create needs to know of the entry it takes. */
  lemma SpawnFacts(s: Sys, cur: int, i: nat)
    requires Steady(s, {}, cur) && i < N && s.procs[i].state.STOPPED?
    ensures |Busy(s.pids)| < WORD && s.nextPid < WORD && Free(s.q, i)
    ensures Of(s.q, Senders(i)) == [] && Of(s.q, Receivers(i)) == []
  {
    FewPids(s, {}, cur);
    NextIsWord(s, {}, cur);
    StoppedFree(s, cur, i);
    hide Steady;
    FewBusy(s.pids);
  }

  lemma StoppedFree(s: Sys, cur: int, i: nat)
    requires Steady(s, {}, cur) && i < N && s.procs[i].state.STOPPED?
    ensures Free(s.q, i) && Of(s.q, Senders(i)) == [] && Of(s.q, Receivers(i)) == []
  {
    FirstIn(Of(s.q, Senders(i)));
    FirstIn(Of(s.q, Receivers(i)));
  }

  /** A process that is not queued and neither runs nor is ready is in no list. */
  lemma TargetFree(s: Sys, pid: nat)
    requires Steady(s, {}, s.cur) && pid in s.pids
    ensures s.pids[pid] < N
    ensures var p := s.procs[s.pids[pid]];
      !Queued(p) && !p.state.RUNNING? && !p.state.READY? ==> Free(s.q, s.pids[pid])
  {
  }

  /** A queued process is somewhere in the list its state says. */
  lemma QueuedAt(s: Sys, t: nat) returns (i: nat)
    requires Steady(s, {}, s.cur) && s.cur >= 0 && t < N && |s.procs| == N && Queued(s.procs[t])
    ensures var h := PlaceOf(s.procs[t], s.pids);
      && h != ReadyQueue && i < |Of(s.q, h)| && Of(s.q, h)[i] == t && t != s.cur
      && UpTo(Of(s.q, h), t) == Of(s.q, h)[..i + 1] && t !in Of(s.q, ReadyQueue)
  {
    var p, h := s.procs[t], PlaceOf(s.procs[t], s.pids);
    assert Fine(p, t, s.pids);
    assert Belongs(p, s.pids, h) && t in Of(s.q, h);
    i :| 0 <= i < |Of(s.q, h)| && Of(s.q, h)[i] == t;
    UpToIs(Of(s.q, h), t, i);
  }

  lemma QueuedOutside(s: Sys, t: nat)
    requires Steady(s, {}, s.cur) && s.cur >= 0 && t < N && |s.procs| == N && Queued(s.procs[t])
    ensures var r := Of(s.q, ReadyQueue);
      && Distinct(r) && t !in r && s.cur as nat !in r && s.cur != t
      && Distinct(r + [t]) && s.cur as nat !in r + [t] && Free(s.q, s.cur)
  {
    RunnerFree(s);
  }

  /** Where the links lead after t, blocked in the list h, and then p were made ready. */
  ghost predicate TailsShared(m: Mem, q: Lists, h: Head, t: nat, p: nat) {
    && Chain(m, ReadyQueue, Of(q, ReadyQueue) + [t, p]) && Chain(m, h, UpTo(Of(q, h), t) + [p])
    && forall g :: g != h && g != ReadyQueue ==> Chain(m, g, Of(q, g))
  }

  lemma SharedAfter(m: Mem, m': Mem, s: Sys, i: nat, t: nat, t': Proc, p: nat, p': Proc)
    requires Wired(m, s.q) && Apart(s.q) && Free(s.q, p) && t < N && |s.procs| == N && p != t
    requires var h := PlaceOf(s.procs[t], s.pids);
      h != ReadyQueue && i < |Of(s.q, h)| && Of(s.q, h)[i] == t && UpTo(Of(s.q, h), t) == Of(s.q, h)[..i + 1]
    requires TwoReadied(m, m', Of(s.q, ReadyQueue), t, t', t'.(state := READY), p, p', p'.(state := READY))
    ensures TailsShared(m', s.q, PlaceOf(s.procs[t], s.pids), t, p)
  {
    hide Wired, Apart, Chain, Readied, Free, SetProc, UpTo, TwoReadied, PlaceOf;
    TailShared(m, m', s.q, PlaceOf(s.procs[t], s.pids), i, t, t', t'.(state := READY), p, p', p'.(state := READY));
  }

  lemma HeadCell(m: Mem, q: Lists, h: Head)
    requires Wired(m, q) && Of(q, h) != []
    ensures IsCell(m, HeadOf(h)) && CellAt(h, Of(q, h), 0) == HeadOf(h)
  {
    assert Chain(m, h, Of(q, h));
  }

  lemma DeltasOther(t: seq<Pcb>, t': seq<Pcb>, l: seq<nat>, left: map<nat, nat>, x: nat)
    requires Deltas(t, l, left) && |t'| == |t| && x !in l
    requires forall i :: 0 <= i < |t| && i != x ==> t'[i].delta == t[i].delta
    ensures Deltas(t', l, left)
  {
    assert forall i :: 0 <= i < |l| ==> l[i] in l;
  }

  /** One tick off the first difference is one tick off everybody's time. */
  lemma DeltasCountDown(t: seq<Pcb>, l: seq<nat>, left: map<nat, nat>)
    requires Deltas(t, l, left) && Sleeping(l, left) && Distinct(l)
    ensures l == [] ==> Deltas(t, l, CountDown(left))
    ensures l != [] ==>
      && l[0] < |t| && t[l[0]].delta >= 1
      && Deltas(t[l[0] := t[l[0]].(delta := t[l[0]].delta - 1)], l, CountDown(left))
  {
    if l != [] {
      var left' := CountDown(left);
      assert l[0] in l && left[l[0]] == Before(l, left, 0) + t[l[0]].delta;
      var t' := t[l[0] := t[l[0]].(delta := t[l[0]].delta - 1)];
      forall i {:trigger Before(l, left', i)} | 0 <= i < |l|
        ensures l[i] in l && left'[l[i]] == Before(l, left', i) + t'[l[i]].delta
      {
        assert left[l[i]] == Before(l, left, i) + t[l[i]].delta;
        if i > 0 {
          assert l[i] != l[0] && l[i - 1] in l;
        }
      }
    }
  }

  lemma DeltasRest(t: seq<Pcb>, l: seq<nat>, left: map<nat, nat>)
    requires Deltas(t, l, left) && Distinct(l) && l != [] && l[0] in left && left[l[0]] == 0
    ensures Deltas(t, l[1..], left - {l[0]})
  {
    var l', left' := l[1..], left - {l[0]};
    assert forall i :: 0 <= i < |l'| ==> l'[i] == l[i + 1] && l[i + 1] in l;
    forall i {:trigger Before(l', left', i)} | 0 <= i < |l'|
      ensures l'[i] in l' && left'[l'[i]] == Before(l', left', i) + t[l'[i]].delta
    {
      assert left[l[i + 1]] == Before(l, left, i + 1) + t[l[i + 1]].delta;
    }
  }

  lemma FirstHasNone(l: seq<nat>, left: map<nat, nat>, t: seq<Pcb>)
    requires Deltas(t, l, left) && l != [] && l[0] < |t|
    ensures l[0] in left && left[l[0]] == t[l[0]].delta
  {
    assert l[0] in l && left[l[0]] == Before(l, left, 0) + t[l[0]].delta;
  }

  lemma WakeUnfold(s: Sys)
    requires |s.procs| == N && (forall x :: x in Of(s.q, SleepList) ==> x < N) && Of(s.q, SleepList) != []
    requires Of(s.q, SleepList)[0] in s.left && s.left[Of(s.q, SleepList)[0]] == 0
    ensures var l := Of(s.q, SleepList);
      l[0] < N &&
      var r := Return(s.(q := s.q[SleepList := l[1..]], left := s.left - {l[0]}), l[0], 0);
      (forall x :: x in Of(r.q, SleepList) ==> x < N) && Wake(s) == Wake(r)
  {
    FirstIn(Of(s.q, SleepList));
    assert forall x :: x in Of(s.q, SleepList)[1..] ==> x in Of(s.q, SleepList);
  }

  lemma LastWake(s: Sys, t: seq<Pcb>)
    requires |s.procs| == N == |t| && (forall x :: x in Of(s.q, SleepList) ==> x < N)
    requires Deltas(t, Of(s.q, SleepList), s.left)
    requires Of(s.q, SleepList) != [] ==> Of(s.q, SleepList)[0] < N && t[Of(s.q, SleepList)[0]].delta != 0
    ensures Wake(s) == s
  {
    if Of(s.q, SleepList) != [] {
      FirstIn(Of(s.q, SleepList));
      FirstHasNone(Of(s.q, SleepList), s.left, t);
    }
  }

  lemma HeadIs(m: Mem, q: Lists, h: Head)
    requires Wired(m, q) && IsCell(m, HeadOf(h))
    ensures Load(m, HeadOf(h)) == At(Of(q, h), 0) && -1 <= Load(m, HeadOf(h)) < N
  {
    assert Chain(m, h, Of(q, h)) && CellAt(h, Of(q, h), 0) == HeadOf(h);
    assert Load(m, CellAt(h, Of(q, h), 0)) == At(Of(q, h), 0);
  }

  /** The process that stops is in no list, before and after everyone waiting for it is made ready. */
  lemma Unblocked(s: Sys) returns (s2: Sys)
    requires Steady(s, {}, s.cur) && s.cur >= 0
    ensures Handleable(s) && Free(s.q, s.cur)
    ensures (forall x :: x in Of(Unblock(s, Senders(s.cur)).q, Receivers(s.cur)) ==> x < N)
    ensures s2 == Unblock(Unblock(s, Senders(s.cur)), Receivers(s.cur)) && Free(s2.q, s.cur)
  {
    InvHandleable(s);
    RunnerFree(s);
    UnblockFrame(s, Senders(s.cur));
    UnblockKeeps(s, Senders(s.cur), {});
    var s1 := Unblock(s, Senders(s.cur));
    UnblockKeeps(s1, Receivers(s.cur), {});
    s2 := Unblock(s1, Receivers(s.cur));
    RunnerFree(s2);
  }

  lemma UnblockStep(s: Sys, h: Head)
    requires |s.procs| == N && (h.Senders? || h.Receivers?) && Of(s.q, h) != [] && forall x :: x in Of(s.q, h) ==> x < N
    ensures var l := Of(s.q, h);
      l[0] < N &&
      var r := Return(s.(q := s.q[h := l[1..]]), l[0], SYS_SR_NO_PID);
      Of(r.q, h) == l[1..] && (forall x :: x in Of(r.q, h) ==> x < N) && Unblock(s, h) == Unblock(r, h)
  {
    FirstIn(Of(s.q, h));
    assert forall x :: x in Of(s.q, h)[1..] ==> x in Of(s.q, h);
  }

  lemma ListsDistinct(q: Lists)
    requires Apart(q)
    ensures forall h :: Distinct(Of(q, h))
  {
  }

  lemma MembersBelow(m: Mem, q: Lists)
    requires Wired(m, q)
    ensures forall h, x :: x in Of(q, h) ==> x < N
  {
    forall h, x | x in Of(q, h)
      ensures x < N
    {
      assert Chain(m, h, Of(q, h));
    }
  }

  lemma SenderFree(s: Sys, p: nat, a: nat, src: nat)
    requires Steady(s, {}, s.cur) && p == s.cur && src in s.pids && s.pids[src] == a && s.procs[p].pid != src
    ensures a < N && a != p && s.procs[a].pid == src
    ensures forall x :: x in Of(s.q, Senders(p)) && s.procs[x].pid == src ==> x == a
  {
    forall x | x in Of(s.q, Senders(p)) && s.procs[x].pid == src
      ensures x == a
    {
      assert Belongs(s.procs[x], s.pids, Senders(p));
      PidOwner(s, {}, s.cur, x, src);
    }
  }

  lemma FirstSender(s: Sys, p: nat)
    requires Steady(s, {}, s.cur) && p == s.cur
    ensures Of(s.q, Senders(p)) != [] ==>
      var l := Of(s.q, Senders(p));
      l[0] in l && l[0] < N && l[0] != p && RemoveOne(l, l[0]) == l[1..]
  {
    FirstIn(Of(s.q, Senders(p)));
  }

  /** Rank is the only place between those that wake no later and those that wake later. */
  lemma {:induction false} RankIs(l: seq<nat>, left: map<nat, nat>, d: nat, k: nat)
    requires (forall x :: x in l ==> x in left) && k <= |l|
    requires (forall i :: 0 <= i < k ==> left[l[i]] <= d) && (k < |l| ==> left[l[k]] > d)
    ensures k == Rank(l, left, d)
    decreases k
  {
    if k > 0 {
      assert l[0] in l && left[l[0]] <= d;
      assert forall i :: 0 <= i < |l[1..]| ==> l[1..][i] == l[i + 1];
      RankIs(l[1..], left, d, k - 1);
    }
  }

  lemma LaterMore(t: seq<Pcb>, l: seq<nat>, left: map<nat, nat>, k: nat, d: nat, delta: nat)
    requires Deltas(t, l, left) && k < |l| && k == Rank(l, left, d) && delta + Before(l, left, k) == d
    ensures l[k] < |t| && t[l[k]].delta > delta
  {
    assert l[k] in l;
  }

  /** Link p in before v, and take from v the time p waits. */
  function Linked1(m: Mem, p: nat, v: int, delta: nat): (r: Mem)
    requires p < |m.t| && (v == NIL || (0 <= v < |m.t| && v != p && m.t[v].delta >= delta))
    ensures |r.t| == |m.t|
  {
    var t1 := m.t[p := m.t[p].(next := v, delta := delta)];
    m.(t := if v == NIL then t1 else t1[v := t1[v].(delta := t1[v].delta - delta)])
  }

  function WithSleeper(m: Mem, next: Cell, p: nat, v: int, delta: nat): Mem
    requires p < |m.t| && (v == NIL || (0 <= v < |m.t| && v != p && m.t[v].delta >= delta)) && IsCell(m, next)
  {
    var m2 := Store(Linked1(m, p, v, delta), next, p);
    m2.(t := m2.t[p := m2.t[p].(proc := m2.t[p].proc.(state := SLEEPING))])
  }

  lemma SleeperStored(m: Mem, q: Lists, left: map<nat, nat>, k: nat, p: nat, d: nat, delta: nat)
    requires Wired(m, q) && Apart(q) && Free(q, p) && p < N && Deltas(m.t, Of(q, SleepList), left)
    requires k == Rank(Of(q, SleepList), left, d) && delta + Before(Of(q, SleepList), left, k) == d
    ensures var l := Of(q, SleepList);
      var v, next := At(l, k), CellAt(SleepList, l, k);
      && (v == NIL || (0 <= v < N && v != p && m.t[v].delta >= delta)) && IsCell(m, next)
      && var m3, q' := WithSleeper(m, next, p, v, delta), q[SleepList := l[..k] + [p] + l[k..]];
        && Wired(m3, q') && Apart(q') && Deltas(m3.t, l[..k] + [p] + l[k..], left[p := d]) && |m3.t| == N
        && Procs(m3.t) == Procs(m.t)[p := m.t[p].proc.(state := SLEEPING)]
  {
    var l, l' := Of(q, SleepList), Of(q, SleepList)[..k] + [p] + Of(q, SleepList)[k..];
    var v, next := At(l, k), CellAt(SleepList, l, k);
    SleeperCell(m, q, left, k, p, d, delta);
    hide Wired, Apart, Deltas, Rank, Free;
    var m1 := Linked1(m, p, v, delta);
    SleeperPlaced(m, m1, q, l, k, p, v);
    var m2, m3 := Store(m1, next, p), WithSleeper(m, next, p, v, delta);
    ApartInsert(q, SleepList, k, p);
    WiredUpdate(m2, q[SleepList := l'], p, m2.t[p].(proc := m2.t[p].proc.(state := SLEEPING)));
    SleeperFields(m, m3, l, k, p, v, delta, next);
    DeltasInsert(m.t, m3.t, l, left, k, p, d, delta);
  }

  lemma SleeperCell(m: Mem, q: Lists, left: map<nat, nat>, k: nat, p: nat, d: nat, delta: nat)
    requires Wired(m, q) && Apart(q) && Free(q, p) && p < N && Deltas(m.t, Of(q, SleepList), left)
    requires k == Rank(Of(q, SleepList), left, d) && delta + Before(Of(q, SleepList), left, k) == d
    ensures var l := Of(q, SleepList);
      var v, next := At(l, k), CellAt(SleepList, l, k);
      && (v == NIL || (0 <= v < N && v != p && m.t[v].delta >= delta)) && IsCell(m, next) && |m.t| == N
      && Distinct(l) && p !in l
      && forall i :: 0 <= i < |l| ==> l[i] < N && (v == l[i] <==> i == k)
  {
    var l := Of(q, SleepList);
    assert Chain(m, SleepList, l) && forall i :: 0 <= i < |l| ==> l[i] in l;
    if k < |l| {
      LaterMore(m.t, l, left, k, d, delta);
    }
  }

  lemma SleeperFields(m: Mem, m3: Mem, l: seq<nat>, k: nat, p: nat, v: int, delta: nat, next: Cell)
    requires p < |m.t| && (v == NIL || (0 <= v < |m.t| && v != p && m.t[v].delta >= delta)) && IsCell(m, next)
    requires m3 == WithSleeper(m, next, p, v, delta)
    ensures |m3.t| == |m.t| && m3.t[p].delta == delta
    ensures forall i :: 0 <= i < |m.t| && i != p ==> m3.t[i].delta == m.t[i].delta - if i == v then delta else 0
    ensures Procs(m3.t) == Procs(m.t)[p := m.t[p].proc.(state := SLEEPING)]
  {
  }

  /** The list in memory once the new sleeper points to the one after it. */
  lemma SleeperPlaced(m: Mem, m1: Mem, q: Lists, l: seq<nat>, k: nat, p: nat, v: int)
    requires Wired(m, q) && Apart(q) && Free(q, p) && p < N && l == Of(q, SleepList) && k <= |l| && v == At(l, k)
    requires |m1.t| == N && m1.readyQueue == m.readyQueue && m1.sleepList == m.sleepList
    requires forall i :: 0 <= i < N ==> m1.t[i].next == (if i == p then v else m.t[i].next)
    requires forall i :: 0 <= i < N ==> m1.t[i].senders == m.t[i].senders && m1.t[i].receivers == m.t[i].receivers
    ensures IsCell(m1, CellAt(SleepList, l, k))
    ensures Wired(Store(m1, CellAt(SleepList, l, k), p), q[SleepList := l[..k] + [p] + l[k..]])
  {
    forall h
      ensures Chain(m1, h, Of(q, h))
    {
      var g := Of(q, h);
      assert Chain(m, h, g);
      forall j {:trigger At(g, j)} | 0 <= j <= |g| && IsCell(m1, HeadOf(h))
        ensures Load(m1, CellAt(h, g, j)) == At(g, j)
      {
        assert IsCell(m, HeadOf(h)) && Load(m, CellAt(h, g, j)) == At(g, j);
        assert j > 0 ==> g[j - 1] in g;
      }
    }
    WiredInsert(m1, q, SleepList, k, p);
  }

  lemma DeltasInsert(t: seq<Pcb>, t': seq<Pcb>, l: seq<nat>, left: map<nat, nat>, k: nat, p: nat, d: nat, delta: nat)
    requires Deltas(t, l, left) && Distinct(l) && p !in l && p < |t| && |t'| == |t| && k <= |l|
    requires delta + Before(l, left, k) == d
    requires t'[p].delta == delta
    requires forall i :: 0 <= i < |l| ==> l[i] < |t|
    requires k < |l| ==> t[l[k]].delta >= delta && t'[l[k]].delta == t[l[k]].delta - delta
    requires forall i :: 0 <= i < |l| && i != k ==> t'[l[i]].delta == t[l[i]].delta
    ensures Deltas(t', l[..k] + [p] + l[k..], left[p := d])
  {
    var l', left' := l[..k] + [p] + l[k..], left[p := d];
    InsertAt(l, k, p);
    assert forall i :: 0 <= i < |l| ==> l[i] in l;
    forall i {:trigger Before(l', left', i)} | 0 <= i < |l'|
      ensures l'[i] in l' && left'[l'[i]] == Before(l', left', i) + t'[l'[i]].delta
    {
      if i < k {
        assert left[l[i]] == Before(l, left, i) + t[l[i]].delta;
      } else if i > k {
        assert left[l[i - 1]] == Before(l, left, i - 1) + t[l[i - 1]].delta;
      }
    }
  }

  /** Taking d out of a list leaves it free, and p as free as it was. */
  lemma NotRemoved(q: Lists, h: Head, d: nat, p: nat)
    requires Apart(q) && Free(q, p)
    ensures d in Of(q, h) ==> Free(q[h := RemoveOne(Of(q, h), d)], d) && Free(q[h := RemoveOne(Of(q, h), d)], p)
  {
    if d in Of(q, h) {
      ApartRemove(q, h, d);
    }
  }

  lemma NextStays(m: Mem, q: Lists, h: Head, x: nat)
    requires Wired(m, q) && Free(q, x) && x < N && IsCell(m, HeadOf(h)) && m.t[x].next == NIL
    ensures var end := CellAt(h, Of(q, h), |Of(q, h)|); IsCell(m, end) && Store(m, end, x).t[x].next == NIL
  {
    var l := Of(q, h);
    assert Chain(m, h, l);
    assert |l| > 0 ==> l[|l| - 1] in l;
  }

  /** The running process is in no list. */
  lemma RunnerFree(s: Sys)
    requires Steady(s, {}, s.cur) && s.cur >= 0
    ensures Free(s.q, s.cur)
  {
  }

  /** The process p may be about to meet: registered, not p, and in no list once taken out of its queue. */
  lemma ReceiverFree(s: Sys, p: nat, d: nat, dest: nat)
    requires Steady(s, {}, s.cur) && p == s.cur && dest in s.pids && s.pids[dest] == d && s.procs[p].pid != dest
    ensures d < N && d != p && s.procs[d].pid == dest
    ensures forall x :: x in Of(s.q, Receivers(p)) && s.procs[x].pid == dest ==> x == d
    ensures s.procs[d].state.RECEIVING? && s.procs[d].partner == 0 ==> Free(s.q, d)
  {
    forall x | x in Of(s.q, Receivers(p)) && s.procs[x].pid == dest
      ensures x == d
    {
      assert Belongs(s.procs[x], s.pids, Receivers(p));
      PidOwner(s, {}, s.cur, x, dest);
    }
  }
}
