/**
 Delivering signals (c/signal.c, c/disp.c:117-123): frames on the stack of a process, and
 the mask that lets only more urgent signals in while a handler runs.
 */
module Signal {
  import opened Basics

  const NUM_SIGNAL: bv32 := 32
  const ALL: bv32 := 0xFFFF_FFFF

  // Layout of signal_frame: eleven words of context, then these.
  const EIP: int := 32
  const CS: int := 36
  const EFLAGS: int := 40
  const RET_ADDR: int := 44
  const HANDLER: int := 48
  const CNTX: int := 52
  const OLD_SP: int := 56
  const OLD_HI_SIG: int := 60
  const OLD_IRC: int := 64
  const FRAME: int := 68

  // ------------------------------------------------------------------
  // Masks

  /** SIG_INT */
  function SigInt(sig: bv32): bv32
    requires sig < NUM_SIGNAL
  {
    1 << sig
  }

  /** A signal number as an index, and back. */
  function Number(sig: bv32): (n: nat)
    requires sig <= NUM_SIGNAL
    ensures n <= 32 && (sig < NUM_SIGNAL ==> n < 32)
  {
    sig as int
  }

  function SigNo(n: nat): (sig: bv32)
    requires n <= 32
    ensures sig <= NUM_SIGNAL && Number(sig) == n
  {
    if n == 0 then 0 else NumberNext(SigNo(n - 1), n); SigNo(n - 1) + 1
  }

  lemma NumberNext(k: bv32, n: nat)
    requires k <= NUM_SIGNAL && Number(k) == n - 1 < 32
    ensures k < NUM_SIGNAL && Number(k + 1) == n
  {
  }

  lemma NumberRises(k: bv32, j: bv32)
    requires k < j <= NUM_SIGNAL
    ensures Number(k) < Number(j)
  {
  }

  predicate Has(mask: bv32, sig: bv32)
    requires sig < NUM_SIGNAL
  {
    And(mask, SigInt(sig)) != 0
  }

  /** The signals from k up. */
  function From(k: bv32): bv32
    requires k <= NUM_SIGNAL
  {
    if k == NUM_SIGNAL then 0 else ALL << k
  }

  /** sig is the highest signal in the mask. */
  predicate Highest(mask: bv32, sig: bv32) {
    sig < NUM_SIGNAL && mask >> sig == 1
  }

  lemma FromHas(k: bv32, sig: bv32)
    requires k <= NUM_SIGNAL && sig < NUM_SIGNAL
    ensures Has(From(k), sig) <==> k <= sig
  {
  }

  lemma HighestHas(mask: bv32, sig: bv32, other: bv32)
    requires Highest(mask, sig) && other < NUM_SIGNAL
    ensures Has(mask, sig) && (Has(mask, other) ==> other <= sig)
  {
  }

  lemma HigherMask(sig: bv32)
    requires sig < NUM_SIGNAL
    ensures !SigInt(sig) - (SigInt(sig) - 1) == From(sig + 1)
  {
  }

  lemma HighestAbove(mask: bv32, sig: bv32, k: bv32)
    requires Highest(mask, sig) && k <= NUM_SIGNAL
    ensures mask & From(k) != 0 <==> k <= sig
  {
  }

  /** msb_1_pos() */
  method MsbPos(x0: bv32) returns (n: bv32)
    ensures n <= 32 && (n == 32 <==> x0 == 0)
    ensures x0 != 0 ==> Highest(x0, 31 - n)
  {
    if x0 == 0 {
      return 32;
    }
    var x := x0;
    n := 0;
    if x <= 0x0000_FFFF {
      n := n + 16;
      x := x << 16;
    }
    if x <= 0x00FF_FFFF {
      n := n + 8;
      x := x << 8;
    }
    if x <= 0x0FFF_FFFF {
      n := n + 4;
      x := x << 4;
    }
    if x <= 0x3FFF_FFFF {
      n := n + 2;
      x := x << 2;
    }
    if x <= 0x7FFF_FFFF {
      n := n + 1;
    }
  }

  // ------------------------------------------------------------------
  // The process and its memory, in words

  function WordOf(x: long): word {
    if x >= 0 then x else x + WORD
  }

  function LongOf(w: word): long {
    if w < WORD / 2 then w else w - WORD
  }

  function MaskWord(m: bv32): word {
    m as int
  }

  function MaskOf(w: word): bv32 {
    w as bv32
  }

  lemma MaskRoundTrip(m: bv32)
    ensures MaskOf(MaskWord(m)) == m
  {
  }

  /** Words by address. */
  type Mem = map<int, word>

  function Load(mem: Mem, a: int): word {
    if a in mem then mem[a] else 0
  }

  /** The address of the frame that ends at a stack pointer. */
  function Below(esp: word): word {
    if esp >= FRAME then esp - FRAME else esp - FRAME + WORD
  }

  /** The part of a process control block that signals touch, and the memory of the process. */
  datatype Proc = Proc(esp: word, irc: long, pending: bv32, allowed: bv32, hi: bv32, handlers: seq<word>, mem: Mem)

  /**
   What the kernel is linked to: the trampoline, the return address under it, the code
   segment, the start of the heap.
   */
  datatype Image = Image(sigtramp: word, fakeReturn: word, cs: word, freemem: long)

  predicate Sound(p: Proc) {
    |p.handlers| == 32
  }

  /** The frame deliver_signal() builds at `base`. */
  function Framed(p: Proc, base: word, sig: bv32, image: Image): Mem
    requires Sound(p) && sig < NUM_SIGNAL
  {
    p.mem[base := 0][base + 4 := 0][base + 8 := 0][base + 12 := 0]
         [base + 16 := 0][base + 20 := 0][base + 24 := 0][base + 28 := 0]
         [base + EIP := image.sigtramp][base + CS := image.cs][base + EFLAGS := 0x3200]
         [base + RET_ADDR := image.fakeReturn][base + HANDLER := p.handlers[Number(sig)]]
         [base + CNTX := p.esp][base + OLD_SP := p.esp]
         [base + OLD_HI_SIG := MaskWord(p.hi)][base + OLD_IRC := WordOf(p.irc)]
  }

  predicate Delivers(p: Proc) {
    And(p.pending, p.hi) != 0
  }

  /** The most urgent pending signal. */
  function Urgent(mask: bv32): (sig: bv32)
    requires mask != 0
    ensures sig < NUM_SIGNAL && Highest(mask, sig)
  {
    UrgentFrom(mask, 31)
  }

  function UrgentFrom(mask: bv32, sig: bv32): (r: bv32)
    requires mask != 0 && sig < NUM_SIGNAL && mask >> sig <= 1
    ensures Highest(mask, r)
    decreases sig
  {
    if mask >> sig == 1 then sig else UrgentFrom(mask, sig - 1)
  }

  lemma OneHighest(mask: bv32, a: bv32, b: bv32)
    requires Highest(mask, a) && Highest(mask, b)
    ensures a == b
  {
  }

  function Without(mask: bv32, sig: bv32): bv32
    requires sig < NUM_SIGNAL
  {
    And(mask, Not(SigInt(sig)))
  }

  /** The signals above one. */
  function Above(sig: bv32): bv32
    requires sig < NUM_SIGNAL
  {
    From(sig + 1)
  }

  /** deliver_signal() when there is a signal to deliver */
  function Deliver(p: Proc, image: Image): (r: Proc)
    requires Sound(p) && Delivers(p)
    ensures Sound(r)
  {
    var sig := Urgent(p.pending);
    p.(esp := Below(p.esp), mem := Framed(p, Below(p.esp), sig, image),
       pending := Without(p.pending, sig), hi := Above(sig))
  }

  /** The SIGRETURN request */
  function SigReturn(p: Proc, oldSp: word): (r: Proc)
    ensures Sound(p) ==> Sound(r)
  {
    p.(esp := oldSp, hi := MaskOf(Load(p.mem, Below(oldSp) + OLD_HI_SIG)),
       irc := LongOf(Load(p.mem, Below(oldSp) + OLD_IRC)))
  }

  /** What signal() records. */
  function Posted(p: Proc, sigs: bv32): (r: Proc)
    requires Sound(p)
    ensures Sound(r)
  {
    p.(pending := Or(p.pending, And(sigs, p.allowed)))
  }

  /**
   register_sig_handler(): a bad signal number, or a handler in the heap, changes no handler.
   The old handler is stored first, if a place is given for it.
   */
  function Registered(p: Proc, sig: int, handler: word, oldAt: word, freemem: long): (r: Proc)
    requires Sound(p)
    ensures Sound(r)
  {
    if sig < 0 || sig >= 32 then p.(irc := -1)
    else
      var q := if oldAt != 0 then p.(mem := p.mem[oldAt := p.handlers[sig]]) else p;
      if LongOf(handler) >= freemem then q.(irc := -2)
      else q.(handlers := p.handlers[sig := handler], irc := 0,
              allowed := Allowing(p.allowed, SigNo(sig), handler != 0))
  }

  function Allowing(mask: bv32, sig: bv32, on: bool): bv32
    requires sig <= NUM_SIGNAL
  {
    if on then Or(mask, 1 << sig) else And(mask, Not(1 << sig))
  }

  // ------------------------------------------------------------------
  // Well nested runs

  /**
   What a process does between two points of its life, well nested: a handler starts at
   Handle, does `body`, and returns through the trampoline.
   */
  datatype Script =
    | Done
    | Store(addr: int, w: word, rest: Script)
    | Move(esp: word, rest: Script)
    | Result(irc: long, rest: Script)
    | Post(sigs: bv32, rest: Script)
    | Register(sig: int, handler: word, oldAt: word, rest: Script)
    | Handle(body: Script, rest: Script)

  predicate Fits(p: Proc, limit: int) {
    Delivers(p) && FRAME <= p.esp <= limit
  }

  /**
   The run of a script that touches nothing from `limit` up; None if the script does not keep
   to that, or starts a handler when no signal is to be delivered. While a handler runs, the
   limit is the return address in its frame. The trampoline passes on the stack pointer it
   finds among its arguments.
   */
  function Run(p: Proc, s: Script, limit: int, image: Image): (r: Option<Proc>)
    requires Sound(p)
    ensures r.Some? ==> Sound(r.value)
    decreases s
  {
    match s
    case Done => Some(p)
    case Store(addr, w, rest) =>
      if addr < limit then Run(p.(mem := p.mem[addr := w]), rest, limit, image) else None
    case Move(esp, rest) => Run(p.(esp := esp), rest, limit, image)
    case Result(irc, rest) => Run(p.(irc := irc), rest, limit, image)
    case Post(sigs, rest) => Run(Posted(p, sigs), rest, limit, image)
    case Register(sig, handler, oldAt, rest) =>
      if oldAt < limit then Run(Registered(p, sig, handler, oldAt, image.freemem), rest, limit, image) else None
    case Handle(body, rest) =>
      if !Fits(p, limit) then None
      else
        var base := Below(p.esp);
        match Run(Deliver(p, image), body, base + RET_ADDR, image)
        case None => None
        case Some(q) => Run(SigReturn(q, Load(q.mem, base + OLD_SP)), rest, limit, image)
  }

  ghost predicate SameFrom(m: Mem, n: Mem, limit: int) {
    forall a :: limit <= a ==> Load(m, a) == Load(n, a)
  }

  /** Only the seventeen words of the frame are written. */
  lemma FrameWrites(p: Proc, base: word, sig: bv32, image: Image)
    requires Sound(p) && sig < NUM_SIGNAL
    ensures var m := Framed(p, base, sig, image);
      && Load(m, base + OLD_SP) == p.esp && Load(m, base + OLD_HI_SIG) == MaskWord(p.hi)
      && Load(m, base + OLD_IRC) == WordOf(p.irc)
      && forall a {:trigger Load(m, a)} :: a < base || base + FRAME <= a ==> Load(m, a) == Load(p.mem, a)
  {
  }

  /** Nothing from the limit up changes, and the mask is what it was. */
  lemma {:induction false} RunKeeps(p: Proc, s: Script, limit: int, image: Image)
    requires Sound(p) && Run(p, s, limit, image).Some?
    ensures var r := Run(p, s, limit, image).value; SameFrom(p.mem, r.mem, limit) && r.hi == p.hi
    decreases s, 1
  {
    hide Delivers, Posted, Registered, Deliver, SigReturn, SameFrom;
    match s
    case Done =>
      Still(p.mem, limit);
    case Store(addr, w, rest) =>
      RunKeeps(p.(mem := p.mem[addr := w]), rest, limit, image);
      var r := Run(p, s, limit, image).value;
      Stored(p.mem, addr, w, limit, r.mem);
    case Move(esp, rest) => RunKeeps(p.(esp := esp), rest, limit, image);
    case Result(irc, rest) => RunKeeps(p.(irc := irc), rest, limit, image);
    case Post(sigs, rest) =>
      PostedKeeps(p, sigs);
      RunKeeps(Posted(p, sigs), rest, limit, image);
    case Register(sig, handler, oldAt, rest) =>
      var q := Registered(p, sig, handler, oldAt, image.freemem);
      RegisteredKeeps(p, sig, handler, oldAt, image.freemem);
      RunKeeps(q, rest, limit, image);
      Both(p.mem, q.mem, oldAt + 1, Run(q, rest, limit, image).value.mem, limit);
    case Handle(body, rest) =>
      var q := HandlerRestores(p, body, limit, image);
      RunKeeps(q, rest, limit, image);
      Both(p.mem, q.mem, p.esp, Run(q, rest, limit, image).value.mem, limit);
  }

  lemma PostedKeeps(p: Proc, sigs: bv32)
    requires Sound(p)
    ensures Posted(p, sigs).mem == p.mem && Posted(p, sigs).hi == p.hi
  {
  }

  lemma RegisteredKeeps(p: Proc, sig: int, handler: word, oldAt: word, freemem: long)
    requires Sound(p)
    ensures Registered(p, sig, handler, oldAt, freemem).hi == p.hi
    ensures SameFrom(p.mem, Registered(p, sig, handler, oldAt, freemem).mem, oldAt + 1)
  {
  }

  lemma Still(m: Mem, limit: int)
    ensures SameFrom(m, m, limit)
  {
  }

  lemma Stored(m: Mem, addr: int, w: word, limit: int, n: Mem)
    requires addr < limit && SameFrom(m[addr := w], n, limit)
    ensures SameFrom(m, n, limit)
  {
    forall a | limit <= a
      ensures Load(m, a) == Load(n, a)
    {
      assert Load(m[addr := w], a) == Load(n, a);
    }
  }

  lemma Both(m: Mem, n: Mem, from: int, o: Mem, limit: int)
    requires SameFrom(m, n, from) && SameFrom(n, o, limit) && from <= limit
    ensures SameFrom(m, o, limit)
  {
    forall a | limit <= a
      ensures Load(m, a) == Load(o, a)
    {
      assert Load(m, a) == Load(n, a);
    }
  }

  /**
   A handler that keeps below the return address of its frame, whatever it and the handlers
   nested in it do: after its SIGRETURN the stack pointer, the mask and the pending result are
   those of the interrupted process, and so is the memory above its stack pointer.
   */
  lemma {:induction false} HandlerRestores(p: Proc, body: Script, limit: int, image: Image) returns (r: Proc)
    requires Sound(p) && Fits(p, limit) && Run(Deliver(p, image), body, Below(p.esp) + RET_ADDR, image).Some?
    ensures var q := Run(Deliver(p, image), body, Below(p.esp) + RET_ADDR, image).value;
      r == SigReturn(q, Load(q.mem, Below(p.esp) + OLD_SP))
    ensures r.esp == p.esp && r.hi == p.hi && r.irc == p.irc && SameFrom(p.mem, r.mem, p.esp)
    decreases body, 2
  {
    hide Run, Framed, Urgent, From, SigInt;
    var d := Deliver(p, image);
    var base := Below(p.esp);
    var q := Run(d, body, base + RET_ADDR, image).value;
    RunKeeps(d, body, base + RET_ADDR, image);
    var sig := Urgent(p.pending);
    FrameWrites(p, base, sig, image);
    MaskRoundTrip(p.hi);
    assert d.mem == Framed(p, base, sig, image);
    assert Load(d.mem, base + OLD_SP) == Load(q.mem, base + OLD_SP);
    assert Load(d.mem, base + OLD_HI_SIG) == Load(q.mem, base + OLD_HI_SIG);
    assert Load(d.mem, base + OLD_IRC) == Load(q.mem, base + OLD_IRC);
    r := SigReturn(q, Load(q.mem, base + OLD_SP));
    forall a | p.esp <= a
      ensures Load(p.mem, a) == Load(r.mem, a)
    {
      assert Load(d.mem, a) == Load(p.mem, a);
      assert Load(d.mem, a) == Load(q.mem, a);
    }
  }

  // ------------------------------------------------------------------
  // Nesting

  /** Every handler a script starts is for a signal from k up, and those in it for a greater one. */
  predicate Rising(p: Proc, s: Script, limit: int, image: Image, k: nat)
    requires Sound(p)
    decreases s
  {
    match s
    case Done => true
    case Store(addr, w, rest) => addr < limit ==> Rising(p.(mem := p.mem[addr := w]), rest, limit, image, k)
    case Move(esp, rest) => Rising(p.(esp := esp), rest, limit, image, k)
    case Result(irc, rest) => Rising(p.(irc := irc), rest, limit, image, k)
    case Post(sigs, rest) => Rising(Posted(p, sigs), rest, limit, image, k)
    case Register(sig, handler, oldAt, rest) =>
      oldAt < limit ==> Rising(Registered(p, sig, handler, oldAt, image.freemem), rest, limit, image, k)
    case Handle(body, rest) =>
      Fits(p, limit) ==> (
        var base := Below(p.esp);
        var sig := Number(Urgent(p.pending));
        var r := Run(Deliver(p, image), body, base + RET_ADDR, image);
        && k <= sig && Rising(Deliver(p, image), body, base + RET_ADDR, image, sig + 1)
        && (r.Some? ==> Rising(SigReturn(r.value, Load(r.value.mem, base + OLD_SP)), rest, limit, image, k)))
  }

  /** The greatest number of frames live at once. */
  function Depth(s: Script): nat {
    match s
    case Done => 0
    case Handle(body, rest) => if Depth(body) + 1 > Depth(rest) then Depth(body) + 1 else Depth(rest)
    case _ => Depth(s.rest)
  }

  lemma NumberAtMost(k: bv32, j: bv32)
    requires k <= j <= NUM_SIGNAL
    ensures Number(k) <= Number(j)
  {
    if k < j {
      NumberRises(k, j);
    }
  }

  lemma NumberAfter(k: bv32) returns (j: bv32)
    requires k < NUM_SIGNAL
    ensures j == k + 1 && j <= NUM_SIGNAL && Number(j) == Number(k) + 1
  {
    j := k + 1;
    NumberRises(k, NUM_SIGNAL);
    assert Number(NUM_SIGNAL) == 32;
    NumberNext(k, Number(k) + 1);
  }

  /** What is delivered comes from the mask, and the new mask is of the signals above it. */
  lemma DeliverRaises(p: Proc, image: Image, k: bv32) returns (next: bv32)
    requires Sound(p) && Delivers(p) && k <= NUM_SIGNAL && p.hi == From(k)
    ensures next <= NUM_SIGNAL && Number(next) == Number(Urgent(p.pending)) + 1 && Number(k) < Number(next)
    ensures Deliver(p, image).hi == From(next)
  {
    hide Number, SigInt, Framed, Highest;
    var sig := Urgent(p.pending);
    HighestAbove(p.pending, sig, k);
    NumberAtMost(k, sig);
    next := NumberAfter(sig);
  }

  /** Handlers nest with strictly increasing signal numbers. */
  lemma {:induction false} HandlersRise(p: Proc, s: Script, limit: int, image: Image, k: bv32)
    requires Sound(p) && k <= NUM_SIGNAL && p.hi == From(k)
    ensures Rising(p, s, limit, image, Number(k))
    decreases s
  {
    hide Delivers, Posted, Registered, Deliver, SigReturn, Run, From, Number, Highest;
    match s
    case Done =>
    case Store(addr, w, rest) => HandlersRise(p.(mem := p.mem[addr := w]), rest, limit, image, k);
    case Move(esp, rest) => HandlersRise(p.(esp := esp), rest, limit, image, k);
    case Result(irc, rest) => HandlersRise(p.(irc := irc), rest, limit, image, k);
    case Post(sigs, rest) =>
      PostedKeeps(p, sigs);
      HandlersRise(Posted(p, sigs), rest, limit, image, k);
    case Register(sig, handler, oldAt, rest) =>
      RegisteredKeeps(p, sig, handler, oldAt, image.freemem);
      HandlersRise(Registered(p, sig, handler, oldAt, image.freemem), rest, limit, image, k);
    case Handle(body, rest) =>
      if Fits(p, limit) {
        var next := DeliverRaises(p, image, k);
        HandlersRise(Deliver(p, image), body, Below(p.esp) + RET_ADDR, image, next);
        if Run(Deliver(p, image), body, Below(p.esp) + RET_ADDR, image).Some? {
          var q := HandlerRestores(p, body, limit, image);
          HandlersRise(q, rest, limit, image, k);
        }
      }
  }

  lemma DeliversMeans(p: Proc)
    requires Delivers(p)
    ensures p.pending != 0
  {
  }

  lemma {:induction false} RisingBounds(p: Proc, s: Script, limit: int, image: Image, k: nat)
    requires Sound(p) && k <= 32 && Rising(p, s, limit, image, k) && Run(p, s, limit, image).Some?
    ensures Depth(s) <= 32 - k
    decreases s
  {
    hide Delivers, Posted, Registered, Deliver, SigReturn, Number, Highest;
    match s
    case Done =>
    case Store(addr, w, rest) => RisingBounds(p.(mem := p.mem[addr := w]), rest, limit, image, k);
    case Move(esp, rest) => RisingBounds(p.(esp := esp), rest, limit, image, k);
    case Result(irc, rest) => RisingBounds(p.(irc := irc), rest, limit, image, k);
    case Post(sigs, rest) => RisingBounds(Posted(p, sigs), rest, limit, image, k);
    case Register(sig, handler, oldAt, rest) =>
      RisingBounds(Registered(p, sig, handler, oldAt, image.freemem), rest, limit, image, k);
    case Handle(body, rest) =>
      var base := Below(p.esp);
      DeliversMeans(p);
      var sig := Number(Urgent(p.pending));
      var r := Run(Deliver(p, image), body, base + RET_ADDR, image).value;
      RisingBounds(Deliver(p, image), body, base + RET_ADDR, image, sig + 1);
      RisingBounds(SigReturn(r, Load(r.mem, base + OLD_SP)), rest, limit, image, k);
  }

  /** From the mask of a new process, no well nested run has more than 32 frames at once. */
  lemma AtMost32Frames(p: Proc, s: Script, limit: int, image: Image)
    requires Sound(p) && p.hi == ALL && Run(p, s, limit, image).Some?
    ensures Depth(s) <= 32
  {
    assert From(0) == ALL && Number(0) == 0;
    HandlersRise(p, s, limit, image, 0);
    RisingBounds(p, s, limit, image, 0);
  }

  /** The number deliver_signal() takes from the position of the highest bit: the highest signal there. */
  method MostUrgent(mask: bv32) returns (sig: bv32)
    requires mask != 0
    ensures sig < NUM_SIGNAL && sig == Urgent(mask) && Has(mask, sig)
    ensures forall other: bv32 :: other < NUM_SIGNAL && Has(mask, other) ==> other <= sig
  {
    hide Highest, Has;
    var n := MsbPos(mask);
    sig := PositionToSignal(n);
    OneHighest(mask, sig, Urgent(mask));
    forall other: bv32 | other < NUM_SIGNAL
      ensures Has(mask, sig) && (Has(mask, other) ==> other <= sig)
    {
      HighestHas(mask, sig, other);
    }
  }

  function PositionToSignal(n: bv32): (sig: bv32)
    requires n < NUM_SIGNAL
    ensures sig == 31 - n && sig < NUM_SIGNAL
  {
    NUM_SIGNAL - n - 1
  }

  /** The new hi_sig, by subtraction: the signals above one. */
  method MaskAbove(sig: bv32) returns (mask: bv32)
    requires sig < NUM_SIGNAL
    ensures mask == Above(sig)
    ensures forall other: bv32 :: other < NUM_SIGNAL ==> (Has(mask, other) <==> sig < other)
  {
    var bit := SigInt(sig);
    mask := !bit - (bit - 1);
    HigherMask(sig);
    hide Has, From;
    forall other: bv32 | other < NUM_SIGNAL
      ensures Has(mask, other) <==> sig < other
    {
      AboveHas(sig, other);
    }
  }

  lemma AboveHas(sig: bv32, other: bv32)
    requires sig < NUM_SIGNAL && other < NUM_SIGNAL
    ensures Has(Above(sig), other) <==> sig < other
  {
    FromHas(sig + 1, other);
  }

  // ------------------------------------------------------------------
  // The kernel's routines on a process control block

  class Pcb {
    var esp: word
    var irc: long
    var pending_sig: bv32
    var allowed_sig: bv32
    var hi_sig: bv32
    var sig_handler: array<word>
    var mem: Mem

    predicate Valid()
      reads this, sig_handler
    {
      sig_handler.Length == 32
    }

    /** The process as a value. */
    function View(): (p: Proc)
      requires Valid()
      reads this, sig_handler
      ensures Sound(p)
    {
      Proc(esp, irc, pending_sig, allowed_sig, hi_sig, sig_handler[..], mem)
    }

    /** The signal fields as create() sets them. */
    constructor (esp: word)
      ensures Valid() && fresh(sig_handler) && View().hi == ALL && View().pending == 0 && View().allowed == 0
      ensures forall i :: 0 <= i < 32 ==> sig_handler[i] == 0
    {
      this.esp, irc, pending_sig, allowed_sig, hi_sig, mem := esp, 0, 0, 0, ALL, map[];
      sig_handler := new word[32](i => 0);
    }

    /** register_sig_handler() */
    method RegisterSigHandler(sig: int, handler: word, oldAt: word, freemem: long)
      requires Valid()
      modifies this, sig_handler
      ensures Valid() && sig_handler == old(sig_handler)
      ensures View() == Registered(old(View()), sig, handler, oldAt, freemem)
    {
      hide SigNo, Allowing;
      if sig < 0 || sig >= 32 {
        irc := -1;
        return;
      }
      if oldAt != 0 {
        mem := mem[oldAt := sig_handler[sig]];
      }
      if LongOf(handler) >= freemem {
        irc := -2;
        return;
      }
      sig_handler[sig] := handler;
      allowed_sig := Allowing(allowed_sig, SigNo(sig), handler != 0);
      irc := 0;
    }

    /** deliver_signal() */
    method DeliverSignal(image: Image)
      requires Valid()
      modifies this
      ensures Valid() && sig_handler == old(sig_handler)
      ensures View() == if Delivers(old(View())) then Deliver(old(View()), image) else old(View())
    {
      hide Delivers, Framed, Without, Above, Highest;
      if Delivers(View()) {
        DeliversMeans(View());
        var sig := MostUrgent(pending_sig);
        var base := Below(esp);
        mem := Framed(View(), base, sig, image);
        esp := base;
        pending_sig := Without(pending_sig, sig);
        hi_sig := MaskAbove(sig);
      }
    }

    /** The SIGRETURN request */
    method Return(oldSp: word)
      requires Valid()
      modifies this
      ensures Valid() && sig_handler == old(sig_handler) && View() == SigReturn(old(View()), oldSp)
    {
      esp := oldSp;
      var frame := Below(esp);
      hi_sig := MaskOf(Load(mem, frame + OLD_HI_SIG));
      irc := LongOf(Load(mem, frame + OLD_IRC));
    }
  }
}
