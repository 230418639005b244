/**
 Numerals: what strings of digits mean, the shortest string for a number, and its digits
 one by one, as shifting and masking find them.
 */
module Numerals {
  import opened Basics

  const DIGITS: string := "0123456789abcdef"

  /** What is left of a result after wrap-around. */
  function Wrap(x: int): long {
    (x + WORD / 2) % WORD - WORD / 2
  }

  /** The unsigned reading of a long. */
  function Unsigned(x: long): (u: nat)
    ensures u < WORD && Wrap(u) == x
  {
    if x < 0 then x + WORD else x
  }

  function Digit(d: int): char
    requires 0 <= d < 16
  {
    DIGITS[d]
  }

  predicate IsDecimal(c: char) {
    '0' <= c <= '9'
  }

  predicate IsHex(c: char) {
    IsDecimal(c) || 'a' <= c <= 'f' || 'A' <= c <= 'F'
  }

  function DigitValue(c: char): nat
    requires IsHex(c)
  {
    if IsDecimal(c) then c as int - '0' as int
    else if 'a' <= c then c as int - 'a' as int + 10
    else c as int - 'A' as int + 10
  }

  lemma DigitMeans(d: int)
    requires 0 <= d < 16
    ensures IsHex(Digit(d)) && DigitValue(Digit(d)) == d && (d < 10 <==> IsDecimal(Digit(d)))
    ensures Digit(d) == '0' <==> d == 0
    ensures d < 10 ==> Digit(d) as int == d + '0' as int
  {
    assert DIGITS[0] == '0' && DIGITS[1] == '1' && DIGITS[2] == '2' && DIGITS[3] == '3';
    assert DIGITS[4] == '4' && DIGITS[5] == '5' && DIGITS[6] == '6' && DIGITS[7] == '7';
    assert DIGITS[8] == '8' && DIGITS[9] == '9' && DIGITS[10] == 'a' && DIGITS[11] == 'b';
    assert DIGITS[12] == 'c' && DIGITS[13] == 'd' && DIGITS[14] == 'e' && DIGITS[15] == 'f';
  }

  ghost predicate AllHex(s: string) {
    forall i :: 0 <= i < |s| ==> IsHex(s[i])
  }

  /** Positional notation. */
  function Value(s: string, base: nat): nat
    requires AllHex(s)
  {
    if s == [] then 0 else Value(s[..|s| - 1], base) * base + DigitValue(s[|s| - 1])
  }

  /** The shortest numeral. */
  function Numeral(n: nat, base: nat): (s: string)
    requires 2 <= base <= 16
    ensures |s| >= 1
  {
    if n < base then [Digit(n)] else Less(n, base); Numeral(n / base, base) + [Digit(n % base)]
  }

  lemma Less(n: nat, base: nat)
    requires 2 <= base
    ensures n > 0 ==> n / base < n
    ensures n == n / base * base + n % base && 0 <= n % base < base && 0 <= n / base
  {
  }

  /** A numeral denotes its number, in digits below the base, the first not 0 unless it is all. */
  lemma {:induction false} NumeralMeans(n: nat, base: nat)
    requires 2 <= base <= 16
    ensures AllHex(Numeral(n, base)) && Value(Numeral(n, base), base) == n
    ensures forall c :: c in Numeral(n, base) && base <= 10 ==> IsDecimal(c)
    ensures n > 0 ==> Numeral(n, base)[0] != '0'
  {
    var s := Numeral(n, base);
    if n < base {
      DigitMeans(n);
      assert s[..|s| - 1] == [];
    } else {
      Less(n, base);
      NumeralMeans(n / base, base);
      DigitMeans(n % base);
      assert s[..|s| - 1] == Numeral(n / base, base);
    }
  }

  // ------------------------------------------------------------------
  // Digit by digit

  /** What is left after k digits; a negative number shifts towards minus infinity. */
  function Shift(n: int, base: nat, k: nat): int
    requires base >= 2
    decreases k
  {
    if k == 0 then n else Shift(n / base, base, k - 1)
  }

  /** The digit of weight base^k. */
  function Low(n: int, base: nat, k: nat): (d: nat)
    requires base >= 2
    ensures d < base
  {
    Shift(n, base, k) % base
  }

  lemma {:induction false} ShiftMore(n: int, base: nat, k: nat)
    requires base >= 2
    ensures Shift(n, base, k + 1) == Shift(n, base, k) / base
    decreases k
  {
    if k > 0 {
      ShiftMore(n / base, base, k - 1);
    }
  }

  /** The digits up to the highest that is not 0 make the numeral. */
  lemma {:induction false} NumeralDigits(n: nat, base: nat, w: nat)
    requires 2 <= base <= 16 && w >= 1 && Shift(n, base, w) == 0 && (w == 1 || Low(n, base, w - 1) != 0)
    ensures |Numeral(n, base)| == w
    ensures forall j :: 0 <= j < w ==> Numeral(n, base)[j] == Digit(Low(n, base, w - 1 - j))
    decreases w
  {
    Less(n, base);
    if w == 1 {
      assert Shift(n, base, 1) == n / base;
    } else {
      var m := n / base;
      NotSmall(n, base, w);
      NumeralDigits(m, base, w - 1);
      forall j | 0 <= j < w
        ensures Numeral(n, base)[j] == Digit(Low(n, base, w - 1 - j))
      {
        if j < w - 1 {
          assert Low(n, base, w - 1 - j) == Low(m, base, w - 2 - j);
        }
      }
    }
  }

  lemma NotSmall(n: nat, base: nat, w: nat)
    requires base >= 2 && w >= 2 && Low(n, base, w - 1) != 0
    ensures n >= base
  {
    if n < base {
      Less(n, base);
      ZeroShift(base, w - 2);
    }
  }

  lemma {:induction false} ZeroShift(base: nat, k: nat)
    requires base >= 2
    ensures Shift(0, base, k) == 0
    decreases k
  {
    if k > 0 {
      ZeroShift(base, k - 1);
    }
  }

  /** A digit that is 0 with nothing above it leaves nothing above the next one either. */
  lemma ZeroAbove(n: nat, base: nat, k: nat)
    requires base >= 2 && Shift(n, base, k + 1) == 0 && Low(n, base, k) == 0
    ensures Shift(n, base, k) == 0
  {
    ShiftMore(n, base, k);
    DivMod(Shift(n, base, k), base);
  }

  lemma DivMod(x: int, base: nat)
    requires base >= 2 && x / base == 0 && x % base == 0
    ensures x == 0
  {
  }
}
