/**
 Reading the keyboard (c/kbd.c): a ring of four characters between the interrupt and the
 process that opened the device. `pending` says that a read request waits, which the source
 takes from the count of characters read.
 */
module Keyboard {
  const KEYBOARD_BUF_LEN: int := 4
  const NEWLINE: int := 10
  const DEFAULT_EOF: int := 4

  /**
   The driver: ring is what is buffered, oldest first; got is what the latest request has
   been given. eofSeen and eofRead are the flags EOF_IN_BUF and EOF_REACHED.
   */
  datatype Driver = Driver(ring: seq<int>, eofSeen: bool, eofRead: bool, eof: int, len: int, got: seq<int>,
                           pending: bool)

  function Open(): Driver {
    Driver([], false, false, DEFAULT_EOF, 0, [], false)
  }

  /** insert_char(): a full ring drops the character. */
  function Insert(d: Driver, c: int): Driver {
    if |d.ring| < KEYBOARD_BUF_LEN then d.(ring := d.ring + [c], eofSeen := d.eofSeen || c == d.eof) else d
  }

  datatype Copied = Copied(d: Driver, done: bool)

  /** buf_copy() */
  function Copy(d: Driver): Copied
    decreases |d.ring|
  {
    if d.ring == [] then Copied(d, false)
    else
      var c := d.ring[0];
      var e := d.(ring := d.ring[1..]);
      if c == d.eof then Copied(e.(eofRead := true), true)
      else
        var f := e.(got := d.got + [c]);
        if c == NEWLINE || |f.got| >= d.len then Copied(f, true) else Copy(f)
  }

  datatype Outcome = Block | Return(data: seq<int>) | Abort

  datatype Answer = Answer(d: Driver, outcome: Outcome)

  /** keyboard_read() */
  function Read(d: Driver, len: int): Answer {
    var e := d.(len := len, got := []);
    if !d.eofSeen && |d.ring| < len then Answer(e.(pending := true), Block)
    else if d.eofRead then Answer(e, Return([]))
    else
      var r := Copy(e);
      Answer(r.d, if r.done then Return(r.d.got) else Abort)
  }

  /** The characters an interrupt takes from the controller: it stops after the first that is dropped. */
  function InsertAll(d: Driver, chars: seq<int>): Driver
    decreases |chars|
  {
    if chars == [] then d
    else if |d.ring| < KEYBOARD_BUF_LEN then InsertAll(Insert(d, chars[0]), chars[1..])
    else d
  }

  /** The test for an unfinished request: the flag, or as the source has it. */
  predicate Wanted(d: Driver, asWritten: bool) {
    if asWritten then |d.got| < d.len else d.pending
  }

  /** The software part of keyboard_lower(). Return: the process is readied with this data. */
  function Lower(d: Driver, chars: seq<int>, asWritten: bool): Answer {
    var e := InsertAll(d, chars);
    if Wanted(d, asWritten) then
      var r := Copy(e);
      if r.done then Answer(r.d.(pending := false), Return(r.d.got)) else Answer(r.d, Block)
    else Answer(e, Block)
  }

  // ------------------------------------------------------------------
  // What reads are for

  /** What one read takes from the typed stream, None if it has to wait for more. */
  datatype Taken = Wait | Took(data: seq<int>, rest: seq<int>, atEof: bool)

  function Take(stream: seq<int>, eof: int, len: int): Taken {
    if stream == [] then Wait
    else if stream[0] == eof then Took([], stream[1..], true)
    else if stream[0] == NEWLINE || len <= 1 then Took([stream[0]], stream[1..], false)
    else
      match Take(stream[1..], eof, len - 1)
      case Wait => Wait
      case Took(data, rest, atEof) => Took([stream[0]] + data, rest, atEof)
  }

  /** What reads of these lengths, one after the other, take from a stream. */
  datatype Served = Short | Served(results: seq<seq<int>>, rest: seq<int>, ended: bool)

  function Serve(stream: seq<int>, eof: int, lens: seq<int>): Served {
    if lens == [] then Served([], stream, false)
    else
      var n := |lens| - 1;
      match Serve(stream, eof, lens[..n])
      case Short => Short
      case Served(results, rest, ended) =>
        if ended then Served(results + [[]], rest, true)
        else
          match Take(rest, eof, lens[n])
          case Wait => Short
          case Took(data, after, atEof) => Served(results + [data], after, atEof)
  }

  /** A line in progress: no newline, no end of file, shorter than asked for. */
  predicate Partial(got: seq<int>, eof: int, len: int) {
    |got| < len && NEWLINE !in got && eof !in got
  }

  /** Copying goes on taking where it stopped. */
  lemma {:induction false} CopyTakes(d: Driver)
    requires Partial(d.got, d.eof, d.len)
    ensures var r := Copy(d);
      match Take(d.got + d.ring, d.eof, d.len)
      case Wait => !r.done && r.d == d.(ring := [], got := d.got + d.ring) && Partial(r.d.got, d.eof, d.len)
      case Took(data, rest, atEof) =>
        r.done && r.d == d.(ring := rest, got := data, eofRead := d.eofRead || atEof)
    decreases |d.ring|
  {
    if d.ring == [] {
      TakePartial(d.got, d.eof, d.len);
      assert d.got + d.ring == d.got;
    } else {
      var c := d.ring[0];
      assert d.got + d.ring == d.got + ([c] + d.ring[1..]);
      TakeThrough(d.got, d.ring, d.eof, d.len);
      if c != d.eof && c != NEWLINE && |d.got| + 1 < d.len {
        var f := d.(ring := d.ring[1..], got := d.got + [c]);
        assert f.got + f.ring == d.got + d.ring;
        CopyTakes(f);
      }
    }
  }

  lemma {:induction false} TakePartial(got: seq<int>, eof: int, len: int)
    requires Partial(got, eof, len)
    ensures Take(got, eof, len) == Wait
    decreases |got|
  {
    if got != [] {
      assert forall c :: c in got[1..] ==> c in got;
      assert got[0] in got;
      TakePartial(got[1..], eof, len - 1);
    }
  }

  /** The character after a line in progress decides whether it ends. */
  lemma {:induction false} TakeThrough(got: seq<int>, ring: seq<int>, eof: int, len: int)
    requires Partial(got, eof, len) && ring != []
    ensures ring[0] == eof ==> Take(got + ring, eof, len) == Took(got, ring[1..], true)
    ensures ring[0] != eof && (ring[0] == NEWLINE || |got| + 1 >= len) ==>
      Take(got + ring, eof, len) == Took(got + [ring[0]], ring[1..], false)
    decreases |got|
  {
    if got == [] {
      assert got + ring == ring;
    } else {
      assert forall c :: c in got[1..] ==> c in got;
      assert got[0] in got;
      assert (got + ring)[1..] == got[1..] + ring;
      TakeThrough(got[1..], ring, eof, len - 1);
      assert [got[0]] + got[1..] == got;
      assert [got[0]] + (got[1..] + [ring[0]]) == got + [ring[0]];
    }
  }

  // ------------------------------------------------------------------
  // More input

  lemma {:induction false} TakeMore(stream: seq<int>, more: seq<int>, eof: int, len: int)
    requires Take(stream, eof, len).Took?
    ensures var t := Take(stream, eof, len); Take(stream + more, eof, len) == Took(t.data, t.rest + more, t.atEof)
    decreases |stream|
  {
    assert (stream + more)[1..] == stream[1..] + more;
    if stream[0] != eof && stream[0] != NEWLINE && len > 1 {
      TakeMore(stream[1..], more, eof, len - 1);
    }
  }

  /** Typing more does not change what earlier reads took. */
  lemma {:induction false} ServeMore(stream: seq<int>, more: seq<int>, eof: int, lens: seq<int>)
    requires Serve(stream, eof, lens).Served?
    ensures var s := Serve(stream, eof, lens);
      Serve(stream + more, eof, lens) == Served(s.results, s.rest + more, s.ended)
    decreases |lens|
  {
    if lens != [] {
      var n := |lens| - 1;
      ServeMore(stream, more, eof, lens[..n]);
      var s := Serve(stream, eof, lens[..n]);
      if !s.ended {
        TakeMore(s.rest, more, eof, lens[n]);
      }
    }
  }

  /** The end of file is read or still to come. */
  lemma {:induction false} TakeEof(stream: seq<int>, eof: int, len: int)
    ensures match Take(stream, eof, len)
            case Wait => eof !in stream && |stream| < if len < 1 then 1 else len
            case Took(data, rest, atEof) => (eof in stream <==> atEof || eof in rest)
    decreases |stream|
  {
    if stream != [] {
      assert stream == [stream[0]] + stream[1..];
      if stream[0] != eof && stream[0] != NEWLINE && len > 1 {
        TakeEof(stream[1..], eof, len - 1);
      }
    }
  }

  /** The call the source takes to be impossible: an end of file was seen but is not what ends a read now. */
  lemma AbortIff(d: Driver, len: int)
    requires len >= 1
    ensures Read(d, len).outcome.Abort? <==> d.eofSeen && !d.eofRead && Take(d.ring, d.eof, len).Wait?
  {
    var e := d.(len := len, got := []);
    CopyTakes(e);
    assert e.got + e.ring == d.ring;
    TakeEof(d.ring, d.eof, len);
  }

  /** Changing the end of file character while one is in the ring does it. */
  lemma ChangedEofAborts()
    ensures Read(Insert(Open(), DEFAULT_EOF).(eof := DEFAULT_EOF + 1), 2).outcome.Abort?
  {
    var d := Insert(Open(), DEFAULT_EOF).(eof := DEFAULT_EOF + 1);
    AbortIff(d, 2);
    assert d.ring == [DEFAULT_EOF] && d.ring[1..] == [];
    assert Take(d.ring[1..], d.eof, 1).Wait?;
  }

  // ------------------------------------------------------------------
  // Runs

  datatype Event = Keys(chars: seq<int>) | Ask(len: int)

  /** What was put into the ring, and what was asked for and given, since the device was opened. */
  datatype Log = Log(d: Driver, accepted: seq<int>, lens: seq<int>, results: seq<seq<int>>, aborted: bool)

  /** Just opened, with this end of file character. */
  function Opened(eof: int): Log {
    Log(Open().(eof := eof), [], [], [], false)
  }

  /** The characters of an interrupt that find room. */
  function Room(d: Driver, chars: seq<int>): seq<int> {
    var room := KEYBOARD_BUF_LEN - |d.ring|;
    if room <= 0 then [] else if room < |chars| then chars[..room] else chars
  }

  /** The process does not run, and so asks for nothing, while it waits. */
  predicate Enabled(l: Log, ev: Event) {
    ev.Ask? ==> !l.d.pending && ev.len >= 1
  }

  function Happen(l: Log, ev: Event): Log {
    match ev
    case Keys(chars) =>
      var a := Lower(l.d, chars, false);
      Log(a.d, l.accepted + Room(l.d, chars), l.lens,
          if a.outcome.Return? then l.results + [a.outcome.data] else l.results, l.aborted)
    case Ask(len) =>
      var a := Read(l.d, len);
      Log(a.d, l.accepted, l.lens + [len],
          if a.outcome.Return? then l.results + [a.outcome.data] else l.results, l.aborted || a.outcome.Abort?)
  }

  predicate AllEnabled(l: Log, evs: seq<Event>)
    decreases |evs|
  {
    evs == [] || (Enabled(l, evs[0]) && AllEnabled(Happen(l, evs[0]), evs[1..]))
  }

  function After(l: Log, evs: seq<Event>): Log
    decreases |evs|
  {
    if evs == [] then l else After(Happen(l, evs[0]), evs[1..])
  }

  /**
   The reads so far got what they take from the accepted characters, one after the other; the
   ring, after the line in progress if a read waits, is the rest.
   */
  predicate Faithful(l: Log) {
    var d := l.d;
    var n := |l.lens| - 1;
    && !l.aborted && |d.ring| <= KEYBOARD_BUF_LEN
    && (d.eofSeen <==> d.eofRead || d.eof in d.ring)
    && (if d.pending then
          n >= 0 && d.len == l.lens[n] && !d.eofRead && Partial(d.got, d.eof, d.len)
          && Serve(l.accepted, d.eof, l.lens[..n]) == Served(l.results, d.got + d.ring, false)
        else
          Serve(l.accepted, d.eof, l.lens) == Served(l.results, d.ring, d.eofRead))
  }

  lemma {:induction false} InsertAllIs(d: Driver, chars: seq<int>)
    requires |d.ring| <= KEYBOARD_BUF_LEN
    ensures InsertAll(d, chars) == d.(ring := d.ring + Room(d, chars), eofSeen := d.eofSeen || d.eof in Room(d, chars))
    decreases |chars|
  {
    if chars != [] && |d.ring| < KEYBOARD_BUF_LEN {
      var e := Insert(d, chars[0]);
      InsertAllIs(e, chars[1..]);
      assert Room(d, chars) == [chars[0]] + Room(e, chars[1..]);
      assert d.ring + [chars[0]] + Room(e, chars[1..]) == d.ring + Room(d, chars);
    } else {
      assert d.ring + [] == d.ring;
    }
  }

  /** A read that waits, with more in the ring, goes on. */
  lemma CopyKeeps(l: Log)
    requires Faithful(l) && l.d.pending
    ensures var r := Copy(l.d);
      Faithful(l.(d := r.d.(pending := !r.done), results := if r.done then l.results + [r.d.got] else l.results))
  {
    var d := l.d;
    CopyTakes(d);
    TakeEof(d.got + d.ring, d.eof, d.len);
    TakePartial(d.got, d.eof, d.len);
    var r := Copy(d);
    assert d.eof in d.got + d.ring <==> d.eof in d.ring;
    assert r.d.got + [] == r.d.got;
    if d.ring != [] {
      CopyMoves(d);
    }
  }

  lemma TypedKeeps(l: Log, chars: seq<int>)
    requires Faithful(l)
    ensures Faithful(l.(d := InsertAll(l.d, chars), accepted := l.accepted + Room(l.d, chars)))
  {
    var d := l.d;
    var more := Room(d, chars);
    InsertAllIs(d, chars);
    ServeMore(l.accepted, more, d.eof, if d.pending then l.lens[..|l.lens| - 1] else l.lens);
    assert d.got + (d.ring + more) == d.got + d.ring + more;
  }

  lemma AskKeeps(l: Log, len: int)
    requires Faithful(l) && !l.d.pending && len >= 1
    ensures Faithful(Happen(l, Ask(len)))
  {
    var d := l.d;
    var e := d.(len := len, got := []);
    var lens := l.lens + [len];
    assert lens[..|lens| - 1] == l.lens;
    assert e.got + e.ring == d.ring;
    if d.eofSeen || |d.ring| >= len {
      if !d.eofRead {
        AbortIff(d, len);
        CopyTakes(e);
        TakeEof(d.ring, d.eof, len);
        if d.ring != [] {
          CopyMoves(e);
        }
      }
    }
  }

  lemma KeysKeep(l: Log, chars: seq<int>)
    requires Faithful(l)
    ensures Faithful(Happen(l, Keys(chars)))
  {
    TypedKeeps(l, chars);
    InsertAllIs(l.d, chars);
    var typed := l.(d := InsertAll(l.d, chars), accepted := l.accepted + Room(l.d, chars));
    if typed.d.pending {
      CopyKeeps(typed);
      CopyTakes(typed.d);
    }
  }

  lemma {:induction false} RunFaithful(l: Log, evs: seq<Event>)
    requires Faithful(l) && AllEnabled(l, evs)
    ensures Faithful(After(l, evs))
    decreases |evs|
  {
    if evs != [] {
      match evs[0] {
        case Keys(chars) => KeysKeep(l, chars);
        case Ask(len) => AskKeeps(l, len);
      }
      RunFaithful(Happen(l, evs[0]), evs[1..]);
    }
  }

  /**
   Whatever the interleaving of interrupts and reads: no read aborts, and the data returned so
   far depends only on the characters accepted and the lengths asked for.
   */
  lemma ReadsFollowTyping(eof: int, evs: seq<Event>)
    requires AllEnabled(Opened(eof), evs)
    ensures var l := After(Opened(eof), evs);
      var answered := if l.d.pending && l.lens != [] then l.lens[..|l.lens| - 1] else l.lens;
      && !l.aborted && (l.d.pending ==> l.lens != [])
      && Serve(l.accepted, l.d.eof, answered).Served? && Serve(l.accepted, l.d.eof, answered).results == l.results
  {
    RunFaithful(Opened(eof), evs);
  }

  /** After an interrupt a read waits only if what was typed does not suffice for it. */
  lemma KeysAnswer(l: Log, chars: seq<int>)
    requires Faithful(l)
    ensures var r := Happen(l, Keys(chars));
      r.d.pending <==> Serve(r.accepted, r.d.eof, r.lens).Short?
  {
    KeysKeep(l, chars);
    var r := Happen(l, Keys(chars));
    if r.d.pending {
      var e := InsertAll(l.d, chars);
      SameRequest(l.d, chars);
      TypedKeeps(l, chars);
      assert Faithful(l.(d := e, accepted := l.accepted + Room(l.d, chars)));
      CopyTakes(e);
      TakePartial(r.d.got, r.d.eof, r.d.len);
      assert r.d.got + r.d.ring == r.d.got;
    }
  }

  /**
   So in every run: whenever an interrupt is over, exactly the reads that the accepted
   characters suffice for have returned.
   */
  lemma NoneWaitsInVain(eof: int, evs: seq<Event>, chars: seq<int>)
    requires AllEnabled(Opened(eof), evs)
    ensures var l := Happen(After(Opened(eof), evs), Keys(chars));
      && (l.d.pending <==> Serve(l.accepted, l.d.eof, l.lens).Short?)
      && |l.results| == |l.lens| - (if l.d.pending then 1 else 0)
  {
    RunFaithful(Opened(eof), evs);
    KeysAnswer(After(Opened(eof), evs), chars);
    KeysKeep(After(Opened(eof), evs), chars);
    var l := Happen(After(Opened(eof), evs), Keys(chars));
    ServedAll(l.accepted, l.d.eof, if l.d.pending then l.lens[..|l.lens| - 1] else l.lens);
  }

  lemma {:induction false} ServedAll(stream: seq<int>, eof: int, lens: seq<int>)
    ensures Serve(stream, eof, lens).Served? ==> |Serve(stream, eof, lens).results| == |lens|
    decreases |lens|
  {
    if lens != [] {
      ServedAll(stream, eof, lens[..|lens| - 1]);
    }
  }

  /**
   A read that asks for more than is buffered waits for the next interrupt, even if a whole
   line is there: it does so in vain exactly if there is a newline and no end of file was seen.
   */
  lemma StallIff(d: Driver, len: int)
    requires len >= 1 && (d.eofSeen <==> d.eofRead || d.eof in d.ring)
    ensures Read(d, len).outcome.Block? && Take(d.ring, d.eof, len).Took? <==>
            !d.eofSeen && |d.ring| < len && NEWLINE in d.ring
  {
    if d.eof !in d.ring && |d.ring| < len {
      TakeShort(d.ring, d.eof, len);
    }
  }

  lemma {:induction false} TakeShort(stream: seq<int>, eof: int, len: int)
    requires eof !in stream && |stream| < len
    ensures Take(stream, eof, len).Took? <==> NEWLINE in stream
    decreases |stream|
  {
    if stream != [] {
      assert forall c :: c in stream[1..] ==> c in stream;
      assert stream == [stream[0]] + stream[1..];
      TakeShort(stream[1..], eof, len - 1);
    }
  }

  /**
   Telling an unfinished request by the count, as written, goes wrong exactly when an earlier
   read ended short of its length and there is something in the ring: its characters go to a
   buffer nobody asked to fill.
   */
  lemma AsWrittenDiffersIff(d: Driver, chars: seq<int>)
    requires d.pending ==> |d.got| < d.len
    ensures Lower(d, chars, true) != Lower(d, chars, false) <==>
            !d.pending && |d.got| < d.len && InsertAll(d, chars).ring != []
  {
    var e := InsertAll(d, chars);
    SameRequest(d, chars);
    if e.ring != [] {
      CopyMoves(e);
    }
  }

  /** The keys a and b; a read of three characters, ended short by a newline. */
  const KEY_A: int := 97
  const KEY_B: int := 98
  const SHORT_READ: seq<Event> := [Ask(3), Keys([KEY_A, NEWLINE])]

  lemma CopyShort(d: Driver)
    requires d.ring == [KEY_A, NEWLINE] && d.got == [] && d.len == 3 && d.eof == DEFAULT_EOF
    ensures Copy(d) == Copied(d.(ring := [], got := [KEY_A, NEWLINE]), true)
  {
    var f := d.(ring := [NEWLINE], got := [KEY_A]);
    assert d.ring[1..] == [NEWLINE] && d.got + [KEY_A] == [KEY_A];
    assert Copy(d) == Copy(f);
    assert f.ring[1..] == [] && f.got + [NEWLINE] == [KEY_A, NEWLINE];
  }

  lemma ShortReadEnds()
    ensures AllEnabled(Opened(DEFAULT_EOF), SHORT_READ)
    ensures var d := After(Opened(DEFAULT_EOF), SHORT_READ).d;
      d.ring == [] && !d.pending && d.len == 3 && d.got == [KEY_A, NEWLINE]
  {
    var l0, keys := Opened(DEFAULT_EOF), Keys([KEY_A, NEWLINE]);
    var l1 := Happen(l0, Ask(3));
    assert l1.d == Open().(len := 3, pending := true);
    InsertAllIs(l1.d, keys.chars);
    assert InsertAll(l1.d, keys.chars).ring == [KEY_A, NEWLINE];
    CopyShort(InsertAll(l1.d, keys.chars));
    hide Copy, InsertAll;
    assert SHORT_READ[1..] == [keys] && [keys][1..] == [];
    AfterTwo(l0, Ask(3), keys);
    assert SHORT_READ == [Ask(3), keys];
  }

  lemma AfterTwo(l: Log, a: Event, b: Event)
    ensures After(l, [a, b]) == Happen(Happen(l, a), b)
    ensures AllEnabled(l, [a, b]) <==> Enabled(l, a) && Enabled(Happen(l, a), b)
  {
    hide Happen, Enabled;
    assert [a, b][1..] == [b] && [b][1..] == [];
    assert After(l, [a, b]) == After(Happen(l, a), [b]);
    assert AllEnabled(l, [a, b]) <==> Enabled(l, a) && AllEnabled(Happen(l, a), [b]);
  }

  /** After a read that a newline ended short, the next key, as written, goes to a buffer nobody asked to fill. */
  lemma StrayKey()
    ensures AllEnabled(Opened(DEFAULT_EOF), SHORT_READ)
    ensures var d := After(Opened(DEFAULT_EOF), SHORT_READ).d; Lower(d, [KEY_B], true) != Lower(d, [KEY_B], false)
  {
    ShortReadEnds();
    hide After, AllEnabled, Opened, Lower;
    var d := After(Opened(DEFAULT_EOF), SHORT_READ).d;
    InsertAllIs(d, [KEY_B]);
    AsWrittenDiffersIff(d, [KEY_B]);
  }

  lemma {:induction false} SameRequest(d: Driver, chars: seq<int>)
    ensures var e := InsertAll(d, chars); e.got == d.got && e.len == d.len && e.pending == d.pending
    decreases |chars|
  {
    if chars != [] && |d.ring| < KEYBOARD_BUF_LEN {
      SameRequest(Insert(d, chars[0]), chars[1..]);
    }
  }

  lemma {:induction false} CopyMoves(d: Driver)
    requires d.ring != []
    ensures |Copy(d).d.ring| < |d.ring|
    decreases |d.ring|
  {
    if |d.ring| > 1 {
      CopyMoves(d.(ring := d.ring[1..], got := d.got + [d.ring[0]]));
    }
  }

  // ------------------------------------------------------------------
  // The driver in place

  /** The place of the i-th character from the head. */
  function Slot(head: int, i: int): (s: int)
    ensures 0 <= s < KEYBOARD_BUF_LEN
  {
    (head + i) % KEYBOARD_BUF_LEN
  }

  lemma SlotsDiffer(head: int, size: int)
    requires 0 <= size < KEYBOARD_BUF_LEN
    ensures forall i :: 0 <= i < size ==> Slot(head, i) != Slot(head, size)
  {
  }

  lemma NextSlot(head: int)
    requires 0 <= head < KEYBOARD_BUF_LEN
    ensures Slot(head, 0) == head && forall i :: Slot(Slot(head, 1), i) == Slot(head, i + 1)
  {
  }

  class Device {
    var kb_buf: array<int>
    var head: int
    var size: int
    var buf: array<int>
    var buf_len: int
    var ch_read: int
    var eof: int
    var eofSeen: bool
    var eofRead: bool
    var pending: bool

    predicate Valid()
      reads this
    {
      && kb_buf.Length == KEYBOARD_BUF_LEN && 0 <= head < KEYBOARD_BUF_LEN && 0 <= size <= KEYBOARD_BUF_LEN
      && buf != kb_buf && 0 <= ch_read <= buf.Length && buf_len <= buf.Length
    }

    /** What is buffered, oldest first. */
    ghost function Ring(): (r: seq<int>)
      requires Valid()
      reads this, kb_buf
      ensures |r| == size
    {
      seq(size, i requires 0 <= i < size && Valid() reads this, kb_buf => kb_buf[Slot(head, i)])
    }

    ghost function View(): Driver
      requires Valid()
      reads this, kb_buf, buf
    {
      Driver(Ring(), eofSeen, eofRead, eof, buf_len, buf[..ch_read], pending)
    }

    /** keyboard_open(), for the driver as a whole. */
    constructor ()
      ensures Valid() && View() == Open() && fresh(kb_buf)
    {
      kb_buf := new int[KEYBOARD_BUF_LEN](i => 0);
      buf := new int[0];
      head, size, buf_len, ch_read, eof := 0, 0, 0, 0, DEFAULT_EOF;
      eofSeen, eofRead, pending := false, false, false;
    }

    /** insert_char() */
    method InsertChar(c: int) returns (ok: bool)
      requires Valid()
      modifies this, kb_buf
      ensures Valid() && kb_buf == old(kb_buf) && buf == old(buf)
      ensures View() == Insert(old(View()), c) && ok == (old(size) < KEYBOARD_BUF_LEN)
    {
      ok := size < KEYBOARD_BUF_LEN;
      if ok {
        SlotsDiffer(head, size);
        kb_buf[Slot(head, size)] := c;
        size := size + 1;
        if c == eof {
          eofSeen := true;
        }
        assert Ring() == old(Ring()) + [c];
      }
    }

    /** remove_char() */
    method RemoveChar() returns (c: int)
      requires Valid() && size > 0
      modifies this
      ensures Valid() && kb_buf == old(kb_buf) && buf == old(buf) && size == old(size) - 1
      ensures c == old(Ring()[0]) && View() == old(View()).(ring := old(Ring()[1..]))
    {
      NextSlot(head);
      c := kb_buf[head];
      head := Slot(head, 1);
      size := size - 1;
      assert Ring() == old(Ring())[1..];
    }

    /** Hands one character to the process. */
    method Store(c: int)
      requires Valid() && ch_read < buf_len
      modifies this`ch_read, buf
      ensures Valid() && View() == old(View()).(got := old(View().got) + [c])
    {
      ghost var r := Ring();
      buf[ch_read] := c;
      ch_read := ch_read + 1;
      assert Ring() == r;
    }

    /** buf_copy() */
    method BufCopy() returns (done: bool)
      requires Valid() && ch_read < buf_len
      modifies this, buf
      ensures Valid() && kb_buf == old(kb_buf) && buf == old(buf)
      ensures Copied(View(), done) == old(Copy(View()))
    {
      done := false;
      while !done && size > 0
        invariant Valid() && kb_buf == old(kb_buf) && buf == old(buf)
        invariant !done ==> ch_read < buf_len && Copy(View()) == old(Copy(View()))
        invariant done ==> Copied(View(), true) == old(Copy(View()))
        decreases size
      {
        ghost var d := View();
        var c := RemoveChar();
        if c == eof {
          eofRead := true;
          done := true;
          assert View() == d.(ring := d.ring[1..], eofRead := true);
        } else {
          Store(c);
          done := c == NEWLINE || ch_read >= buf_len;
        }
      }
    }

    /** keyboard_read() */
    method KeyboardRead(into: array<int>, len: int) returns (outcome: Outcome)
      requires Valid() && into != kb_buf && 1 <= len <= into.Length
      modifies this, into
      ensures Valid() && kb_buf == old(kb_buf) && buf == into
      ensures Answer(View(), outcome) == Read(old(View()), len)
    {
      buf, buf_len, ch_read := into, len, 0;
      assert View() == old(View()).(len := len, got := []);
      if !eofSeen && size < len {
        pending := true;
        outcome := Block;
      } else if eofRead {
        outcome := Return([]);
      } else {
        var done := BufCopy();
        outcome := if done then Return(buf[..ch_read]) else Abort;
      }
    }

    /** The software part of keyboard_lower(), for the characters the controller holds. */
    method KeyboardLower(chars: seq<int>, asWritten: bool) returns (outcome: Outcome)
      requires Valid() && (pending ==> ch_read < buf_len)
      modifies this, kb_buf, buf
      ensures Valid() && kb_buf == old(kb_buf) && buf == old(buf)
      ensures Answer(View(), outcome) == Lower(old(View()), chars, asWritten)
    {
      var i := 0;
      var ok := true;
      while i < |chars| && ok
        invariant Valid() && kb_buf == old(kb_buf) && buf == old(buf) && 0 <= i <= |chars|
        invariant ch_read == old(ch_read) && buf_len == old(buf_len) && pending == old(pending)
        invariant ok ==> InsertAll(View(), chars[i..]) == old(InsertAll(View(), chars))
        invariant !ok ==> View() == old(InsertAll(View(), chars))
      {
        ghost var rest := chars[i..];
        assert rest[0] == chars[i] && rest[1..] == chars[i + 1..];
        ok := InsertChar(chars[i]);
        i := i + 1;
      }
      assert View() == old(InsertAll(View(), chars));
      outcome := Block;
      if if asWritten then ch_read < buf_len else pending {
        var done := BufCopy();
        if done {
          pending := false;
          outcome := Return(buf[..ch_read]);
        }
      }
    }
  }
}
