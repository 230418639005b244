/**
 What becomes of pending signals: which one a delivery takes, that none is lost, and that no
 signal starts more handlers than it was posted times.
 */
module SignalEffects {
  import opened Basics
  import opened Signal

  // ------------------------------------------------------------------
  // Single signals in masks

  lemma OneSignal(i: bv32, k: bv32)
    requires i < NUM_SIGNAL && k < NUM_SIGNAL
    ensures And(SigInt(i), SigInt(k)) == if i == k then SigInt(k) else 0
    ensures SigInt(k) != 0
  {
  }

  lemma ClearedSelf(mask: bv32, b: bv32)
    ensures And(And(mask, Not(b)), b) == 0
  {
  }

  lemma Cleared(mask: bv32, b: bv32, c: bv32)
    ensures And(b, c) == 0 ==> And(And(mask, Not(b)), c) == And(mask, c)
  {
  }

  lemma Added(mask: bv32, b: bv32, c: bv32)
    ensures And(b, c) == 0 ==> And(Or(mask, b), c) == And(mask, c)
    ensures And(Or(mask, b), b) == b
  {
  }

  lemma WithoutHas(mask: bv32, sig: bv32, k: bv32)
    requires sig < NUM_SIGNAL && k < NUM_SIGNAL
    ensures Has(Without(mask, sig), k) <==> k != sig && Has(mask, k)
  {
    hide SigInt, And, Not;
    OneSignal(sig, k);
    Cleared(mask, SigInt(sig), SigInt(k));
    ClearedSelf(mask, SigInt(sig));
  }

  /** One bit of a mask is there or not. */
  lemma AllOrNothing(a: bv32, k: bv32)
    requires k < NUM_SIGNAL
    ensures And(a, SigInt(k)) == 0 || And(a, SigInt(k)) == SigInt(k)
    ensures SigInt(k) != 0
  {
  }

  lemma AddedAll(mask: bv32, b: bv32, c: bv32)
    ensures And(b, c) == c ==> And(Or(mask, b), c) == c
  {
  }

  lemma Shared(a: bv32, b: bv32, c: bv32)
    ensures And(a, c) == 0 || And(b, c) == 0 ==> And(And(a, b), c) == 0
    ensures And(a, c) == c && And(b, c) == c ==> And(And(a, b), c) == c
  {
  }

  lemma PostedHas(mask: bv32, sigs: bv32, allowed: bv32, k: bv32)
    requires k < NUM_SIGNAL
    ensures Has(Or(mask, And(sigs, allowed)), k) <==> Has(mask, k) || (Has(sigs, k) && Has(allowed, k))
  {
    hide SigInt, And, Or;
    var c := SigInt(k);
    AllOrNothing(sigs, k);
    AllOrNothing(allowed, k);
    Shared(sigs, allowed, c);
    Added(mask, And(sigs, allowed), c);
    AddedAll(mask, And(sigs, allowed), c);
  }

  lemma AllowingHas(mask: bv32, sig: bv32, on: bool, k: bv32)
    requires sig < NUM_SIGNAL && k < NUM_SIGNAL
    ensures Has(Allowing(mask, sig, on), k) <==> if k == sig then on else Has(mask, k)
  {
    hide SigInt, And, Or, Not, Allowing;
    OneSignal(sig, k);
    Added(mask, SigInt(sig), SigInt(k));
    Cleared(mask, SigInt(sig), SigInt(k));
    ClearedSelf(mask, SigInt(sig));
    AllowingIs(mask, sig, on);
  }

  lemma AllowingIs(mask: bv32, sig: bv32, on: bool)
    requires sig < NUM_SIGNAL
    ensures Allowing(mask, sig, on) == if on then Or(mask, SigInt(sig)) else And(mask, Not(SigInt(sig)))
  {
  }

  // ------------------------------------------------------------------
  // One delivery

  /**
   A delivery takes the highest pending signal and no other, lets in only higher ones, and
   leaves a frame that starts the trampoline with the handler registered for it.
   */
  lemma DeliverOutcome(p: Proc, image: Image) returns (sig: bv32)
    requires Sound(p) && Delivers(p)
    ensures sig < NUM_SIGNAL && Has(p.pending, sig)
    ensures forall k: bv32 :: k < NUM_SIGNAL && Has(p.pending, k) ==> k <= sig
    ensures forall k: bv32 :: k < NUM_SIGNAL ==>
      (Has(Deliver(p, image).pending, k) <==> k != sig && Has(p.pending, k))
    ensures forall k: bv32 :: k < NUM_SIGNAL ==> (Has(Deliver(p, image).hi, k) <==> sig < k)
    ensures var r := Deliver(p, image);
      && r.esp == Below(p.esp) && r.irc == p.irc && r.allowed == p.allowed && r.handlers == p.handlers
      && Load(r.mem, r.esp + HANDLER) == p.handlers[Number(sig)]
      && Load(r.mem, r.esp + EIP) == image.sigtramp && Load(r.mem, r.esp + CS) == image.cs
      && Load(r.mem, r.esp + RET_ADDR) == image.fakeReturn
      && Load(r.mem, r.esp + CNTX) == Load(r.mem, r.esp + OLD_SP) == p.esp && Load(r.mem, r.esp + EFLAGS) == 0x3200
      && forall i :: 0 <= i < 8 ==> Load(r.mem, r.esp + 4 * i) == 0
  {
    hide Has, Without, Above, Highest, Framed, Number;
    DeliversMeans(p);
    sig := Urgent(p.pending);
    HighestOnly(p.pending, sig);
    FrameStarts(p, Below(p.esp), sig, image);
    forall k: bv32 | k < NUM_SIGNAL
      ensures Has(Without(p.pending, sig), k) <==> k != sig && Has(p.pending, k)
      ensures Has(Above(sig), k) <==> sig < k
    {
      WithoutHas(p.pending, sig, k);
      AboveHas(sig, k);
    }
  }

  lemma HighestOnly(mask: bv32, sig: bv32)
    requires Highest(mask, sig)
    ensures sig < NUM_SIGNAL && Has(mask, sig)
    ensures forall k: bv32 :: k < NUM_SIGNAL && Has(mask, k) ==> k <= sig
  {
    hide Has;
    forall k: bv32 | k < NUM_SIGNAL
      ensures Has(mask, sig) && (Has(mask, k) ==> k <= sig)
    {
      HighestHas(mask, sig, k);
    }
    HighestHas(mask, sig, 0);
  }

  lemma FrameStarts(p: Proc, base: word, sig: bv32, image: Image)
    requires Sound(p) && sig < NUM_SIGNAL
    ensures var m := Framed(p, base, sig, image);
      && Load(m, base + HANDLER) == p.handlers[Number(sig)] && Load(m, base + EIP) == image.sigtramp
      && Load(m, base + CS) == image.cs && Load(m, base + RET_ADDR) == image.fakeReturn
      && Load(m, base + CNTX) == Load(m, base + OLD_SP) == p.esp && Load(m, base + EFLAGS) == 0x3200
      && forall i :: 0 <= i < 8 ==> Load(m, base + 4 * i) == 0
  {
    hide Number;
  }

  lemma Overlap(a: bv32, b: bv32) returns (k: bv32)
    requires And(a, b) != 0
    ensures k < NUM_SIGNAL && Highest(And(a, b), k)
  {
    k := Urgent(And(a, b));
  }

  lemma InBothMasks(a: bv32, b: bv32, k: bv32)
    requires k < NUM_SIGNAL
    ensures Has(And(a, b), k) <==> Has(a, k) && Has(b, k)
  {
    hide SigInt, And;
    AllOrNothing(a, k);
    AllOrNothing(b, k);
    Shared(a, b, SigInt(k));
  }

  lemma NonePending(mask: bv32, k: bv32)
    requires k < NUM_SIGNAL && Has(mask, k)
    ensures mask != 0
  {
  }

  /** There is something to deliver exactly if a pending signal is let in. */
  lemma DeliversIff(p: Proc)
    ensures Delivers(p) <==> exists k: bv32 :: k < NUM_SIGNAL && Has(p.pending, k) && Has(p.hi, k)
  {
    hide Has, Highest, And;
    if Delivers(p) {
      var k := Overlap(p.pending, p.hi);
      HighestOnly(And(p.pending, p.hi), k);
      InBothMasks(p.pending, p.hi, k);
    }
    if k: bv32 :| k < NUM_SIGNAL && Has(p.pending, k) && Has(p.hi, k) {
      InBothMasks(p.pending, p.hi, k);
      NonePending(And(p.pending, p.hi), k);
    }
  }

  // ------------------------------------------------------------------
  // Registering

  /**
   A handler is registered exactly for a good signal number and an address below the heap:
   then that signal, and no other, is allowed from now on, unless the handler is NULL; the
   old handler is stored unless the number was bad.
   */
  lemma RegisterOutcome(p: Proc, sig: int, handler: word, oldAt: word, freemem: long)
    requires Sound(p)
    ensures var r := Registered(p, sig, handler, oldAt, freemem);
      var good := 0 <= sig < 32;
      && r.irc == (if !good then -1 else if LongOf(handler) >= freemem then -2 else 0)
      && (r.irc == 0 ==> r.handlers == p.handlers[sig := handler])
      && (r.irc != 0 ==> r.handlers == p.handlers)
      && (forall k: bv32 :: k < NUM_SIGNAL ==>
           (Has(r.allowed, k) <==> if r.irc == 0 && Number(k) == sig then handler != 0 else Has(p.allowed, k)))
      && r.pending == p.pending && r.hi == p.hi && r.esp == p.esp
      && (forall a :: Load(r.mem, a) == if good && oldAt != 0 && a == oldAt then p.handlers[sig] else Load(p.mem, a))
  {
    hide Has, Allowing, Number, SigNo;
    if 0 <= sig < 32 && LongOf(handler) < freemem {
      GoodNumber(sig);
      forall k: bv32 | k < NUM_SIGNAL
        ensures Has(Allowing(p.allowed, SigNo(sig), handler != 0), k) <==>
                if Number(k) == sig then handler != 0 else Has(p.allowed, k)
      {
        SameNumber(k, SigNo(sig));
        AllowingHas(p.allowed, SigNo(sig), handler != 0, k);
      }
    }
  }

  lemma GoodNumber(n: nat)
    requires n < 32
    ensures SigNo(n) < NUM_SIGNAL
  {
    assert Number(NUM_SIGNAL) == 32;
  }

  lemma SameNumber(i: bv32, k: bv32)
    requires i <= NUM_SIGNAL && k <= NUM_SIGNAL
    ensures i == k <==> Number(i) == Number(k)
  {
    if i < k {
      NumberRises(i, k);
    }
    if k < i {
      NumberRises(k, i);
    }
  }

  // ------------------------------------------------------------------
  // Over runs

  /** How many handlers a run starts for one signal, and how often it was posted while allowed. */
  datatype Tally = Tally(starts: nat, posts: nat)

  function Sum(a: Tally, b: Tally): Tally {
    Tally(a.starts + b.starts, a.posts + b.posts)
  }

  ghost function Tallied(p: Proc, s: Script, limit: int, image: Image, sig: bv32): Tally
    requires Sound(p) && sig < NUM_SIGNAL
    decreases s
  {
    match s
    case Done => Tally(0, 0)
    case Store(addr, w, rest) => Tallied(p.(mem := p.mem[addr := w]), rest, limit, image, sig)
    case Move(esp, rest) => Tallied(p.(esp := esp), rest, limit, image, sig)
    case Result(irc, rest) => Tallied(p.(irc := irc), rest, limit, image, sig)
    case Post(sigs, rest) =>
      Sum(Tally(0, if Has(sigs, sig) && Has(p.allowed, sig) then 1 else 0),
          Tallied(Posted(p, sigs), rest, limit, image, sig))
    case Register(n, handler, oldAt, rest) =>
      Tallied(Registered(p, n, handler, oldAt, image.freemem), rest, limit, image, sig)
    case Handle(body, rest) =>
      if !Fits(p, limit) then Tally(0, 0)
      else
        var base := Below(p.esp);
        var r := Run(Deliver(p, image), body, base + RET_ADDR, image);
        Sum(Tally(if Highest(p.pending, sig) then 1 else 0, 0),
            Sum(Tallied(Deliver(p, image), body, base + RET_ADDR, image, sig),
                if r.None? then Tally(0, 0)
                else Tallied(SigReturn(r.value, Load(r.value.mem, base + OLD_SP)), rest, limit, image, sig)))
  }

  function Pending(p: Proc, sig: bv32): nat
    requires sig < NUM_SIGNAL
  {
    if Has(p.pending, sig) then 1 else 0
  }

  /** What a piece of a run does to one signal: no start without a post, and nothing lost. */
  ghost predicate Balanced(p: Proc, t: Tally, r: Proc, sig: bv32)
    requires sig < NUM_SIGNAL
  {
    && t.starts + Pending(r, sig) <= t.posts + Pending(p, sig)
    && (t.starts == 0 && t.posts + Pending(p, sig) > 0 ==> Has(r.pending, sig))
  }

  lemma BalancedSum(p: Proc, t: Tally, q: Proc, u: Tally, r: Proc, sig: bv32)
    requires sig < NUM_SIGNAL && Balanced(p, t, q, sig) && Balanced(q, u, r, sig)
    ensures Balanced(p, Sum(t, u), r, sig)
  {
    hide Has;
  }

  lemma SamePending(p: Proc, q: Proc, sig: bv32)
    requires sig < NUM_SIGNAL && p.pending == q.pending
    ensures Balanced(p, Tally(0, 0), q, sig)
  {
    hide Has;
  }

  lemma PostBalanced(p: Proc, sigs: bv32, sig: bv32)
    requires Sound(p) && sig < NUM_SIGNAL
    ensures Balanced(p, Tally(0, if Has(sigs, sig) && Has(p.allowed, sig) then 1 else 0), Posted(p, sigs), sig)
  {
    hide Has, Or, And;
    PostedHas(p.pending, sigs, p.allowed, sig);
  }

  lemma DeliverBalanced(p: Proc, image: Image, sig: bv32)
    requires Sound(p) && Delivers(p) && sig < NUM_SIGNAL
    ensures Balanced(p, Tally(if Highest(p.pending, sig) then 1 else 0, 0), Deliver(p, image), sig)
  {
    hide Has, Framed, Without, Above;
    DeliversMeans(p);
    var top := Urgent(p.pending);
    HighestOnly(p.pending, top);
    WithoutHas(p.pending, top, sig);
    if Highest(p.pending, sig) {
      OneHighest(p.pending, sig, top);
    }
    hide Highest;
  }

  /**
   Over any well nested run, a signal starts no more handlers than it was posted times while
   it was allowed, counting one that was pending before; and if it started none, none is lost.
   */
  lemma {:induction false} StartsBounded(p: Proc, s: Script, limit: int, image: Image, sig: bv32)
    requires Sound(p) && sig < NUM_SIGNAL && Run(p, s, limit, image).Some?
    ensures Balanced(p, Tallied(p, s, limit, image, sig), Run(p, s, limit, image).value, sig)
    decreases s, 1
  {
    hide Delivers, Posted, Registered, Deliver, SigReturn, Balanced, Has, Highest;
    var r := Run(p, s, limit, image).value;
    match s
    case Done => SamePending(p, p, sig);
    case Store(addr, w, rest) =>
      var q := p.(mem := p.mem[addr := w]);
      StartsBounded(q, rest, limit, image, sig);
      SameThen(p, q, Tallied(q, rest, limit, image, sig), r, sig);
    case Move(esp, rest) =>
      var q := p.(esp := esp);
      StartsBounded(q, rest, limit, image, sig);
      SameThen(p, q, Tallied(q, rest, limit, image, sig), r, sig);
    case Result(irc, rest) =>
      var q := p.(irc := irc);
      StartsBounded(q, rest, limit, image, sig);
      SameThen(p, q, Tallied(q, rest, limit, image, sig), r, sig);
    case Post(sigs, rest) =>
      var q := Posted(p, sigs);
      PostBalanced(p, sigs, sig);
      StartsBounded(q, rest, limit, image, sig);
      BalancedSum(p, Tally(0, if Has(sigs, sig) && Has(p.allowed, sig) then 1 else 0),
                  q, Tallied(q, rest, limit, image, sig), r, sig);
    case Register(n, handler, oldAt, rest) =>
      var q := Registered(p, n, handler, oldAt, image.freemem);
      RegisteredPending(p, n, handler, oldAt, image.freemem);
      StartsBounded(q, rest, limit, image, sig);
      SameThen(p, q, Tallied(q, rest, limit, image, sig), r, sig);
    case Handle(body, rest) =>
      HandleBounded(p, body, rest, limit, image, sig);
  }

  lemma {:induction false} HandleBounded(p: Proc, body: Script, rest: Script, limit: int, image: Image, sig: bv32)
    requires Sound(p) && sig < NUM_SIGNAL && Run(p, Handle(body, rest), limit, image).Some?
    ensures Balanced(p, Tallied(p, Handle(body, rest), limit, image, sig),
                     Run(p, Handle(body, rest), limit, image).value, sig)
    decreases Handle(body, rest), 0
  {
    hide Delivers, Posted, Registered, Deliver, SigReturn, Balanced, Has, Highest;
    var r := Run(p, Handle(body, rest), limit, image).value;
    var base := Below(p.esp);
    var d := Deliver(p, image);
    var q := Run(d, body, base + RET_ADDR, image).value;
    var e := SigReturn(q, Load(q.mem, base + OLD_SP));
    DeliverBalanced(p, image, sig);
    StartsBounded(d, body, base + RET_ADDR, image, sig);
    StartsBounded(e, rest, limit, image, sig);
    ReturnPending(q, Load(q.mem, base + OLD_SP));
    SameThen(q, e, Tallied(e, rest, limit, image, sig), r, sig);
    BalancedSum(d, Tallied(d, body, base + RET_ADDR, image, sig), q, Tallied(e, rest, limit, image, sig), r, sig);
    BalancedSum(p, Tally(if Highest(p.pending, sig) then 1 else 0, 0), d,
                Sum(Tallied(d, body, base + RET_ADDR, image, sig), Tallied(e, rest, limit, image, sig)), r, sig);
  }

  lemma SameThen(p: Proc, q: Proc, t: Tally, r: Proc, sig: bv32)
    requires sig < NUM_SIGNAL && p.pending == q.pending && Balanced(q, t, r, sig)
    ensures Balanced(p, t, r, sig)
  {
    hide Has;
  }

  lemma RegisteredPending(p: Proc, sig: int, handler: word, oldAt: word, freemem: long)
    requires Sound(p)
    ensures Registered(p, sig, handler, oldAt, freemem).pending == p.pending
  {
    hide Allowing, SigNo;
  }

  lemma ReturnPending(p: Proc, oldSp: word)
    ensures SigReturn(p, oldSp).pending == p.pending
  {
    hide MaskOf, LongOf, Load, Below;
  }
}
