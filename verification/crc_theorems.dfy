/**
 What the CRC-32 is for: it tells messages apart that differ in one byte or in zeros at the
 front, and it gives the check values of the standard.
 */
module CrcTheorems {
  import opened Basics
  import opened Bits
  import opened Deflate
  import opened Crc32

  // ------------------------------------------------------------------
  // Nothing is forgotten

  lemma StepInjective(a: bv32, b: bv32)
    requires Step(a) == Step(b)
    ensures a == b
  {
  }

  lemma {:induction false} StepsInjective(a: bv32, b: bv32, n: nat)
    requires Steps(a, n) == Steps(b, n)
    ensures a == b
    decreases n
  {
    hide Step;
    if n > 0 {
      StepsInjective(Step(a), Step(b), n - 1);
      StepInjective(a, b);
    }
  }

  lemma XorInjective(a: bv32, b: bv32, x: bv32)
    ensures Xor(a, x) == Xor(b, x) ==> a == b
    ensures Xor(x, a) == Xor(x, b) ==> a == b
  {
  }

  /** Two registers that differ still do after any message. */
  lemma {:induction false} FeedInjective(a: bv32, b: bv32, bits: seq<bool>)
    requires Feed(a, bits) == Feed(b, bits)
    ensures a == b
    decreases |bits|
  {
    hide Step, Xor;
    if bits != [] {
      var x, y := if bits[0] then Xor(a, 1) else a, if bits[0] then Xor(b, 1) else b;
      FeedInjective(Step(x), Step(y), bits[1..]);
      StepInjective(x, y);
      XorInjective(a, b, 1);
    }
  }

  lemma ComplementInjective(a: bv32, b: bv32)
    ensures Complement(a) == Complement(b) ==> a == b
  {
  }

  /** Equal checksums of messages with the same end come from equal registers before it. */
  lemma SameBefore(a: seq<byte>, b: seq<byte>, m: seq<byte>)
    requires Crc(a + m) == Crc(b + m)
    ensures Register(a) == Register(b)
  {
    hide Register, Feed;
    ComplementInjective(Register(a + m), Register(b + m));
    RegisterOfPieces(a, m);
    RegisterOfPieces(b, m);
    FeedInjective(Register(a), Register(b), BitsOf(m));
  }

  /** Changing one byte, wherever it is, changes the checksum. */
  lemma ByteChangeDetected(a: seq<byte>, x: byte, y: byte, m: seq<byte>)
    requires x != y
    ensures Crc(a + [x] + m) != Crc(a + [y] + m)
  {
    hide Register, Feed, Steps, Xor;
    if Crc(a + [x] + m) == Crc(a + [y] + m) {
      SameBefore(a + [x], a + [y], m);
      RegisterOfByte(a, x);
      RegisterOfByte(a, y);
      StepsInjective(Xor(Register(a), x as bv32), Xor(Register(a), y as bv32), 8);
      XorInjective(x as bv32, y as bv32, Register(a));
      Pow2Eight();
      SameWord(x, y, 8);
    }
  }

  lemma {:induction false} SameWord(x: byte, y: byte, n: nat)
    requires x < Pow2(n) && y < Pow2(n) && x as bv32 == y as bv32
    ensures x == y
    decreases n
  {
    if n > 0 {
      OddByte(x);
      OddByte(y);
      HalfByte(x);
      HalfByte(y);
      hide Odd, Half;
      SameWord(x / 2, y / 2, n - 1);
    }
  }

  lemma RegisterOfByte(a: seq<byte>, x: byte)
    ensures Register(a + [x]) == Steps(Xor(Register(a), x as bv32), 8)
  {
    hide Register, Feed, Steps, Xor;
    RegisterOfPieces(a, [x]);
    Pow2Eight();
    FeedByte(Register(a), x, 8);
    assert [x][1..] == [];
    assert BitsOf([x]) == LsbBits(x, 8);
  }

  /** A zero in front of a message changes the checksum: the register does not start from zero. */
  lemma LeadingZeroDetected(m: seq<byte>)
    ensures Crc([0] + m) != Crc(m)
  {
    hide Feed, Steps, Xor, Register;
    if Crc([0] + m) == Crc(m) {
      assert [] + m == m;
      SameBefore([0], [], m);
      assert [] + [0] == [0];
      RegisterOfByte([], 0);
      FirstZero();
    }
  }

  lemma FirstZero()
    ensures Steps(Xor(Register([]), 0), 8) != Register([])
  {
    assert Register([]) == 0xFFFF_FFFF;
    XorZero(0xFFFF_FFFF);
    EightOnes();
  }

  // ------------------------------------------------------------------
  // Check values

  lemma Eight(c: bv32)
    ensures Steps(c, 8) == Step(Step(Step(Step(Step(Step(Step(Step(c))))))))
  {
    hide Step;
  }

  lemma EightOnes()
    ensures Steps(0xFFFF_FFFF, 8) == 0x2dfd1072
  {
    hide Steps;
    Eight(0xFFFF_FFFF);
  }

  lemma Digit(c: bv32, b: byte, x: bv32, d: bv32)
    requires Xor(c, b as bv32) == x && Step(Step(Step(Step(Step(Step(Step(Step(x)))))))) == d
    ensures Feed(c, LsbBits(b, 8)) == d
  {
    hide Step, Xor, Steps, Feed, LsbBits;
    Pow2Eight();
    FeedByte(c, b, 8);
    Eight(x);
  }

  lemma DigitsFed()
    ensures Feed(0xFFFF_FFFF, LsbBits(0x31, 8)) == 0x7C23_1048
    ensures Feed(0x7C23_1048, LsbBits(0x32, 8)) == 0xB0AC_BB32
    ensures Feed(0xB0AC_BB32, LsbBits(0x33, 8)) == 0x77B7_9C2D
    ensures Feed(0x77B7_9C2D, LsbBits(0x34, 8)) == 0x641C_1F5C
    ensures Feed(0x641C_1F5C, LsbBits(0x35, 8)) == 0x340A_C5E3
    ensures Feed(0x340A_C5E3, LsbBits(0x36, 8)) == 0xF68D_2C9E
    ensures Feed(0xF68D_2C9E, LsbBits(0x37, 8)) == 0xAFFC_9660
    ensures Feed(0xAFFC_9660, LsbBits(0x38, 8)) == 0x651F_2550
    ensures Feed(0x651F_2550, LsbBits(0x39, 8)) == 0x340B_C6D9
  {
    hide Feed, LsbBits;
    Digit(0xFFFF_FFFF, 0x31, 0xFFFF_FFCE, 0x7C23_1048);
    Digit(0x7C23_1048, 0x32, 0x7C23_107A, 0xB0AC_BB32);
    Digit(0xB0AC_BB32, 0x33, 0xB0AC_BB01, 0x77B7_9C2D);
    Digit(0x77B7_9C2D, 0x34, 0x77B7_9C19, 0x641C_1F5C);
    Digit(0x641C_1F5C, 0x35, 0x641C_1F69, 0x340A_C5E3);
    Digit(0x340A_C5E3, 0x36, 0x340A_C5D5, 0xF68D_2C9E);
    Digit(0xF68D_2C9E, 0x37, 0xF68D_2CA9, 0xAFFC_9660);
    Digit(0xAFFC_9660, 0x38, 0xAFFC_9658, 0x651F_2550);
    Digit(0x651F_2550, 0x39, 0x651F_2569, 0x340B_C6D9);
  }

  lemma NextByte(c: bv32, m: seq<byte>, i: nat, d: bv32)
    requires i < |m| && Feed(c, LsbBits(m[i], 8)) == d
    ensures Feed(c, BitsOf(m[i..])) == Feed(d, BitsOf(m[i + 1..]))
  {
    hide Feed, LsbBits;
    assert m[i..][1..] == m[i + 1..] && m[i..][0] == m[i];
    FeedAppend(c, LsbBits(m[i], 8), BitsOf(m[i + 1..]));
  }

  /** "123456789" */
  const CHECK: seq<byte> := [0x31, 0x32, 0x33, 0x34, 0x35, 0x36, 0x37, 0x38, 0x39]

  /** The check value of CRC-32. */
  lemma CheckValue()
    ensures Crc(CHECK) == 0xCBF4_3926
  {
    hide Feed, LsbBits;
    DigitsFed();
    assert CHECK[0..] == CHECK && CHECK[9..] == [];
    NextByte(0xFFFF_FFFF, CHECK, 0, 0x7C23_1048);
    NextByte(0x7C23_1048, CHECK, 1, 0xB0AC_BB32);
    NextByte(0xB0AC_BB32, CHECK, 2, 0x77B7_9C2D);
    NextByte(0x77B7_9C2D, CHECK, 3, 0x641C_1F5C);
    NextByte(0x641C_1F5C, CHECK, 4, 0x340A_C5E3);
    NextByte(0x340A_C5E3, CHECK, 5, 0xF68D_2C9E);
    NextByte(0xF68D_2C9E, CHECK, 6, 0xAFFC_9660);
    NextByte(0xAFFC_9660, CHECK, 7, 0x651F_2550);
    NextByte(0x651F_2550, CHECK, 8, 0x340B_C6D9);
    FeedNothing(0x340B_C6D9, CHECK);
  }

  // ------------------------------------------------------------------
  // The checksum behind the message

  /** A word without its lowest byte. */
  function Rest(v: bv32): bv32 { v >> 8 }

  /** A word in four bytes, lowest first, as gzip stores it. */
  function WordBytes(v: bv32): (s: seq<byte>)
    ensures |s| == 4
  {
    var (a, b, c) := (Rest(v), Rest(Rest(v)), Rest(Rest(Rest(v))));
    [Index(LowByte(v)), Index(LowByte(a)), Index(LowByte(b)), Index(LowByte(c))]
  }

  lemma XorCancels(c: bv32, a: bv32, b: bv32)
    ensures Xor(Xor(c, Xor(a, b)), a) == Xor(c, b)
  {
    hide Xor;
    XorAssoc(c, b, a);
    XorSwap(Xor(c, b), 0, a);
  }

  lemma XorAssoc(c: bv32, b: bv32, a: bv32)
    ensures Xor(c, Xor(a, b)) == Xor(Xor(c, b), a)
  {
  }

  /** Feeding the low byte of what was added to a register leaves the rest of it, moved down. */
  lemma ByteOfWord(c: bv32, w: bv32)
    ensures Feed(Xor(c, w), LsbBits(Index(LowByte(w)), 8)) == Xor(Steps(c, 8), Rest(w))
  {
    hide Step, Xor, Half, Odd, LowByte, Index, Steps, Feed, Pow2, LsbBits, LowClear, Down;
    Pow2Eight();
    LowByteIs(w);
    FeedByte(Xor(c, w), Index(LowByte(w)), 8);
    XorCancels(c, w & 0xFF, w & 0xFFFF_FF00);
    SplitByte(w);
    MoveDown(c, w & 0xFFFF_FF00, 8);
  }

  lemma NothingLeft(v: bv32)
    ensures Rest(Rest(Rest(Rest(v)))) == 0
  {
  }

  lemma Complemented(c: bv32)
    ensures Xor(0xFFFF_FFFF, Complement(c)) == c
  {
  }

  lemma FourOnes()
    ensures Steps(0xFFFF_FFFF, 8) == 0x2DFD_1072
    ensures Steps(0x2DFD_1072, 8) == 0xBE26_ED00
    ensures Steps(0xBE26_ED00, 8) == 0x00BE_26ED
    ensures Steps(0x00BE_26ED, 8) == 0xDEBB_20E3
  {
    hide Steps;
    Eight(0xFFFF_FFFF);
    Eight(0x2DFD_1072);
    Eight(0xBE26_ED00);
    Eight(0x00BE_26ED);
  }

  /**
   With its checksum behind it every message leaves the same register, whatever it was before:
   this is what makes the checksum one of this polynomial, complemented, lowest byte first.
   */
  lemma Residue(m: seq<byte>)
    ensures Register(m + WordBytes(Crc(m))) == 0xDEBB_20E3
  {
    hide Xor, Rest, Complement, LowByte, Index, Steps, Feed, LsbBits;
    var c, v := Register(m), Crc(m);
    var t := WordBytes(v);
    RegisterOfPieces(m, t);
    hide Register;
    Complemented(c);
    NothingLeft(v);
    FourOnes();
    assert t[0..] == t && t[4..] == [];
    ByteOfWord(0xFFFF_FFFF, v);
    NextByte(c, t, 0, Xor(0x2DFD_1072, Rest(v)));
    ByteOfWord(0x2DFD_1072, Rest(v));
    NextByte(Xor(0x2DFD_1072, Rest(v)), t, 1, Xor(0xBE26_ED00, Rest(Rest(v))));
    ByteOfWord(0xBE26_ED00, Rest(Rest(v)));
    NextByte(Xor(0xBE26_ED00, Rest(Rest(v))), t, 2, Xor(0x00BE_26ED, Rest(Rest(Rest(v)))));
    ByteOfWord(0x00BE_26ED, Rest(Rest(Rest(v))));
    XorZero(0xDEBB_20E3);
    NextByte(Xor(0x00BE_26ED, Rest(Rest(Rest(v)))), t, 3, 0xDEBB_20E3);
    FeedNothing(0xDEBB_20E3, t);
  }
}
