/**
 The CRC-32 of gzip (section 8 of RFC 1952) one bit at a time, and the table-driven
 register of boot/zBoot/misc.c: makecrc and updcrc.
 */
module Crc32 {
  import opened Basics
  import opened Bits
  import opened Deflate

  /** The polynomial in reflected form: bit 31 - t stands for x^t. */
  const POLY: bv32 := 0xEDB8_8320

  function Xor(a: bv32, b: bv32): bv32 { a ^ b }

  function Half(a: bv32): bv32 { a >> 1 }

  predicate Odd(a: bv32) { a & 1 == 1 }

  /** One shift of the register. */
  function Step(c: bv32): bv32 {
    if Odd(c) then Xor(Half(c), POLY) else Half(c)
  }

  function Steps(c: bv32, n: nat): bv32
    decreases n
  {
    if n == 0 then c else Steps(Step(c), n - 1)
  }

  /** Feed message bits, one shift each. */
  function Feed(c: bv32, bits: seq<bool>): bv32
    decreases |bits|
  {
    if bits == [] then c else Feed(Step(if bits[0] then Xor(c, 1) else c), bits[1..])
  }

  /** The register after a message, starting from all ones. */
  function Register(bytes: seq<byte>): bv32 {
    Feed(0xFFFF_FFFF, BitsOf(bytes))
  }

  /** The CRC-32 of a message. */
  function Crc(bytes: seq<byte>): bv32 {
    Complement(Register(bytes))
  }

  function Complement(c: bv32): bv32 { c ^ 0xFFFF_FFFF }

  lemma {:induction false} FeedAppend(c: bv32, a: seq<bool>, b: seq<bool>)
    ensures Feed(c, a + b) == Feed(Feed(c, a), b)
    decreases |a|
  {
    if a == [] {
      assert a + b == b;
    } else {
      assert (a + b)[1..] == a[1..] + b;
      FeedAppend(Step(if a[0] then Xor(c, 1) else c), a[1..], b);
    }
  }

  lemma {:induction false} BitsOfAppend(a: seq<byte>, b: seq<byte>)
    ensures BitsOf(a + b) == BitsOf(a) + BitsOf(b)
  {
    if a == [] {
      assert a + b == b;
    } else {
      assert (a + b)[1..] == a[1..] + b;
      BitsOfAppend(a[1..], b);
    }
  }

  lemma XorSwap(a: bv32, b: bv32, p: bv32)
    ensures Xor(Xor(a, b), p) == Xor(Xor(a, p), b)
    ensures Xor(Xor(a, p), p) == a
  {
  }

  lemma HalfXor(a: bv32, b: bv32)
    ensures Half(Xor(a, b)) == Xor(Half(a), Half(b))
    ensures Half(Xor(a, 1)) == Half(a)
  {
  }

  lemma OddXor(a: bv32, b: bv32)
    ensures Odd(Xor(a, b)) == (Odd(a) != Odd(b))
    ensures Odd(Xor(a, 1)) == !Odd(a)
  {
  }

  /** One shift of a register with `z` added: the low bit of `z` counts, the rest moves down. */
  lemma StepAdd(c: bv32, z: bv32)
    ensures Step(Xor(c, z)) == Xor(Step(if Odd(z) then Xor(c, 1) else c), Half(z))
  {
    HalfXor(c, z);
    OddXor(c, z);
    XorSwap(Half(c), Half(z), POLY);
    hide Xor, Half, Odd;
  }

  lemma OddByte(b: nat)
    requires b < 256
    ensures Odd(b as bv32) <==> b % 2 == 1
  {
  }

  lemma ShiftByte(b: nat)
    requires b < 256
    ensures (b as bv32) >> 1 == (b / 2) as bv32
  {
  }

  lemma HalfByte(b: nat)
    requires b < 256
    ensures Half(b as bv32) == (b / 2) as bv32
  {
    ShiftByte(b);
  }

  lemma XorZero(c: bv32)
    ensures Xor(c, 0) == c && Xor(0, c) == c
  {
  }

  /** Feeding the bits of a byte is adding the byte to the register and shifting. */
  lemma {:induction false} FeedByte(c: bv32, b: nat, n: nat)
    requires b < 256 && b < Pow2(n)
    ensures Feed(c, LsbBits(b, n)) == Steps(Xor(c, b as bv32), n)
    decreases n
  {
    hide Step, Xor, Half, Odd;
    if n == 0 {
      XorZero(c);
    } else {
      OddByte(b);
      HalfByte(b);
      StepAdd(c, b as bv32);
      FeedByte(Step(if b % 2 == 1 then Xor(c, 1) else c), b / 2, n - 1);
      assert LsbBits(b, n)[1..] == LsbBits(b / 2, n - 1);
    }
  }

  /** z halved n times. */
  function Down(z: bv32, n: nat): bv32
    decreases n
  {
    if n == 0 then z else Down(Half(z), n - 1)
  }

  /** None of the n low bits is set. */
  predicate LowClear(z: bv32, n: nat)
    decreases n
  {
    n == 0 || (!Odd(z) && LowClear(Half(z), n - 1))
  }

  /** n shifts move a part with no low bits straight down. */
  lemma {:induction false} MoveDown(x: bv32, z: bv32, n: nat)
    requires LowClear(z, n)
    ensures Steps(Xor(x, z), n) == Xor(Steps(x, n), Down(z, n))
    decreases n
  {
    hide Step, Xor, Half, Odd;
    if n > 0 {
      StepAdd(x, z);
      MoveDown(Step(x), Half(z), n - 1);
    }
  }

  lemma SplitByte(c: bv32)
    ensures c == Xor(c & 0xFF, c & 0xFFFF_FF00)
    ensures LowClear(c & 0xFFFF_FF00, 8) && Down(c & 0xFFFF_FF00, 8) == c >> 8
  {
    var z := c & 0xFFFF_FF00;
    EightHalves(c);
    hide Half, Odd;
    assert Down(z, 8) == Down(Half(Half(Half(Half(z)))), 4);
    assert LowClear(Half(Half(Half(Half(z)))), 4);
  }

  lemma EightHalves(c: bv32)
    ensures var z := c & 0xFFFF_FF00;
      && !Odd(z) && !Odd(Half(z)) && !Odd(Half(Half(z))) && !Odd(Half(Half(Half(z))))
      && var y := Half(Half(Half(Half(z))));
      && !Odd(y) && !Odd(Half(y)) && !Odd(Half(Half(y))) && !Odd(Half(Half(Half(y))))
      && Half(Half(Half(Half(y)))) == c >> 8
  {
  }

  /** Eight shifts: the high bytes move down, the low byte decides what is added. */
  lemma EightSteps(c: bv32)
    ensures Steps(c, 8) == Xor(Steps(c & 0xFF, 8), c >> 8)
  {
    hide Step, Xor, Half, Odd, Steps, LowClear, Down;
    SplitByte(c);
    MoveDown(c & 0xFF, c & 0xFFFF_FF00, 8);
  }

  // ------------------------------------------------------------------
  // makecrc

  /** The terms of the polynomial except x^32. */
  const TERMS: seq<nat> := [0, 1, 2, 4, 5, 7, 8, 10, 11, 12, 16, 22, 23, 26]

  ghost predicate TableOK(tab: seq<bv32>) {
    |tab| == 256 && forall i :: 0 <= i < 256 ==> tab[i] == Steps(i as bv32, 8)
  }

  /** Sets one bit for each term of the polynomial, the highest power lowest. */
  method Pattern() returns (e: bv32)
    ensures e == POLY
  {
    e := 0;
    var i := 0;
    while i < |TERMS|
      invariant 0 <= i <= 14
      invariant e == [0, 0x8000_0000, 0xC000_0000, 0xE000_0000, 0xE800_0000, 0xEC00_0000, 0xED00_0000, 0xED80_0000,
                      0xEDA0_0000, 0xEDB0_0000, 0xEDB8_0000, 0xEDB8_8000, 0xEDB8_8200, 0xEDB8_8300, 0xEDB8_8320][i]
    {
      e := e | ((1 as bv32) << (31 - TERMS[i]));
      i := i + 1;
    }
  }

  predicate LowByteBit(t: bv32) {
    t == 1 || t == 2 || t == 4 || t == 8 || t == 16 || t == 32 || t == 64 || t == 128
  }

  /** The sentinel bit with n message bits below it. */
  function Top(n: nat): bv32
    requires n <= 8
  {
    [1, 2, 4, 8, 16, 32, 64, 128, 256][n]
  }

  lemma TopBit(n: nat)
    requires 0 < n <= 8
    ensures Top(n) == Top(n - 1) << 1 && LowByteBit(Top(n - 1))
  {
  }

  /** The bits of a byte still to be fed, below the sentinel bit `t`. */
  ghost predicate Sentinel(k: bv32, rest: bv32, t: bv32) {
    rest < t && k == rest | t
  }

  /** The table entry of `i`: its bits are fed in below a sentinel bit. */
  method TableEntry(i: bv32, e: bv32) returns (c: bv32)
    requires i < 256 && e == POLY
    ensures c == Steps(i, 8)
  {
    hide Step, Xor, Half, Odd, Sentinel, Top;
    c := 0;
    var k := i | 256;
    ghost var rest := i;
    ghost var n: nat := 8;
    XorZero(i);
    SentinelStart(i);
    while k != 1
      invariant n <= 8 && Sentinel(k, rest, Top(n))
      invariant Steps(i, 8) == Steps(Xor(c, rest), n)
      decreases n
    {
      NotDone(k, rest, n);
      TopBit(n);
      SentinelShift(k, rest, Top(n - 1));
      StepAdd(c, rest);
      StepOne(c);
      c := if Odd(c) then Xor(Half(c), e) else Half(c);
      if Odd(k) {
        c := Xor(c, e);
      }
      k := Half(k);
      rest := Half(rest);
      n := n - 1;
    }
    AllFed(k, rest, n);
    XorZero(c);
  }

  lemma SentinelStart(i: bv32)
    requires i < 256
    ensures Sentinel(i | 256, i, Top(8))
  {
  }

  lemma NothingBelowOne(k: bv32, rest: bv32)
    requires Sentinel(k, rest, 1)
    ensures k == 1 && rest == 0
  {
  }

  lemma NotDone(k: bv32, rest: bv32, n: nat)
    requires n <= 8 && Sentinel(k, rest, Top(n)) && k != 1
    ensures n > 0
  {
    if n == 0 {
      NothingBelowOne(k, rest);
    }
  }

  lemma AllFed(k: bv32, rest: bv32, n: nat)
    requires n <= 8 && Sentinel(k, rest, Top(n)) && k == 1
    ensures n == 0 && rest == 0
  {
    if n == 0 {
      NothingBelowOne(k, rest);
    }
  }

  lemma SentinelShift(k: bv32, rest: bv32, t: bv32)
    requires LowByteBit(t) && Sentinel(k, rest, t << 1)
    ensures Odd(k) == Odd(rest) && Sentinel(Half(k), Half(rest), t)
  {
  }

  lemma StepOne(c: bv32)
    ensures Step(Xor(c, 1)) == Xor(Step(c), POLY)
    ensures Step(c) == if Odd(c) then Xor(Half(c), POLY) else Half(c)
  {
    HalfXor(c, 1);
    OddXor(c, 1);
    XorSwap(Half(c), 0, POLY);
    hide Xor, Half, Odd;
  }

  method MakeCrc(tab: array<bv32>)
    requires tab.Length == 256
    modifies tab
    ensures TableOK(tab[..])
  {
    hide Steps, Step;
    var e := Pattern();
    tab[0] := 0;
    ZeroEntry();
    for i := 1 to 256
      invariant forall j :: 0 <= j < i ==> tab[j] == Steps(j as bv32, 8)
    {
      SmallByte(i);
      tab[i] := TableEntry(i as bv32, e);
    }
  }

  lemma SmallByte(i: nat)
    requires i < 256
    ensures (i as bv32) < 256
  {
  }

  lemma ZeroEntry()
    ensures Steps(0, 8) == 0
  {
  }

  // ------------------------------------------------------------------
  // updcrc

  function LowByte(x: bv32): (y: bv32)
    ensures y < 256
  {
    x & 0xFF
  }

  function Index(y: bv32): (i: nat)
    requires y < 256
    ensures i < 256 && i as bv32 == y
  {
    y as int
  }

  /** One byte: table lookup by the low byte, and the rest of the register moved down. */
  function ByteStep(tab: seq<bv32>, c: bv32, b: byte): bv32
    requires |tab| == 256
  {
    Xor(tab[Index(LowByte(Xor(c, b as bv32)))], c >> 8)
  }

  lemma Pow2Eight()
    ensures Pow2(8) == 256
  {
  }

  lemma TableLookup(tab: seq<bv32>, c: bv32, b: byte)
    requires TableOK(tab)
    ensures ByteStep(tab, c, b) == Feed(c, LsbBits(b, 8))
  {
    hide Step, Xor, Half, Odd, LowByte, Index, Steps, Feed, Pow2, LsbBits;
    Pow2Eight();
    var x := Xor(c, b as bv32);
    FeedByte(c, b, 8);
    EightSteps(x);
    HighPart(c, b);
    LowByteIs(x);
  }

  lemma LowByteIs(x: bv32)
    ensures LowByte(x) == x & 0xFF
  {
  }

  lemma HighPart(c: bv32, b: byte)
    ensures Xor(c, b as bv32) >> 8 == c >> 8
  {
    SmallByte(b);
    HighPartOf(c, b as bv32);
  }

  lemma HighPartOf(c: bv32, x: bv32)
    requires x < 256
    ensures Xor(c, x) >> 8 == c >> 8
  {
  }

  lemma FeedOneByte(tab: seq<bv32>, c: bv32, s: seq<byte>, i: nat)
    requires TableOK(tab) && i < |s|
    ensures Feed(c, BitsOf(s[i..])) == Feed(ByteStep(tab, c, s[i]), BitsOf(s[i + 1..]))
  {
    hide Step, Xor, Half, Odd, ByteStep;
    TableLookup(tab, c, s[i]);
    assert s[i..][1..] == s[i + 1..];
    FeedAppend(c, LsbBits(s[i], 8), BitsOf(s[i + 1..]));
  }

  /** The shift register of updcrc, with its table. */
  class ShiftRegister {
    const table: array<bv32>
    var crc: bv32

    ghost predicate Valid()
      reads this, table
    {
      table.Length == 256 && TableOK(table[..])
    }

    constructor ()
      ensures Valid() && fresh(table) && crc == Register([])
    {
      table := new bv32[256];
      crc := 0xFFFF_FFFF;
      new;
      MakeCrc(table);
    }

    /** updcrc(NULL, 0) */
    method Reset() returns (r: bv32)
      requires Valid()
      modifies this`crc
      ensures Valid() && crc == Register([]) && r == Crc([]) == 0
    {
      crc := 0xFFFF_FFFF;
      r := crc ^ 0xFFFF_FFFF;
    }

    /** updcrc(s, n) */
    method Update(s: seq<byte>) returns (r: bv32)
      requires Valid()
      modifies this`crc
      ensures Valid() && crc == Feed(old(crc), BitsOf(s)) && r == crc ^ 0xFFFF_FFFF
    {
      hide Xor, Feed, Steps, LowByte, Index;
      var c := crc;
      ghost var c0 := crc;
      assert s[0..] == s;
      for i := 0 to |s|
        invariant Feed(c0, BitsOf(s)) == Feed(c, BitsOf(s[i..]))
        invariant Valid() && crc == c0
      {
        FeedOneByte(table[..], c, s, i);
        c := Xor(table[Index(LowByte(Xor(c, s[i] as bv32)))], c >> 8);
      }
      FeedNothing(c, s);
      crc := c;
      r := c ^ 0xFFFF_FFFF;
    }
  }

  lemma FeedNothing(c: bv32, s: seq<byte>)
    ensures Feed(c, BitsOf(s[|s|..])) == c
  {
  }

  /** However a message is cut into updates, the register is that of the whole message. */
  lemma RegisterOfPieces(a: seq<byte>, b: seq<byte>)
    ensures Feed(Register(a), BitsOf(b)) == Register(a + b)
  {
    BitsOfAppend(a, b);
    FeedAppend(0xFFFF_FFFF, BitsOf(a), BitsOf(b));
  }
}
