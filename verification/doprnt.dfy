/**
 Printing numbers (lib/libxc/doprnt.c): digits are found from the right into a buffer,
 leading zeros are skipped, and the rest is copied out in order.
 */
module Doprnt {
  import opened Basics
  import opened Numerals

  /** A C string at the start of an array. */
  ghost predicate Holds(a: array<char>, s: string)
    reads a
  {
    |s| < a.Length && a[..|s|] == s && a[|s|] == '\0'
  }

  /** Positions 1 to w of the buffer hold the digits from the right. */
  ghost predicate Filled(temp: array<char>, n: int, base: nat, w: nat)
    requires 2 <= base <= 16
    reads temp
  {
    && w < temp.Length && temp[0] == '\0'
    && forall k :: 1 <= k <= w ==> temp[k] == Digit(Low(n, base, k - 1))
  }

  /** The two loops that end each of the conversions: skip leading zeros, copy the rest. */
  method CopyOut(temp: array<char>, w: nat, str: array<char>, ghost n: nat, ghost base: nat)
    requires 2 <= base <= 16 && w >= 1 && Filled(temp, n, base, w) && Shift(n, base, w) == 0
    requires temp != str && str.Length > w
    modifies str
    ensures Holds(str, Numeral(n, base))
  {
    var i := w;
    while temp[i] == '0'
      invariant 0 <= i <= w && Shift(n, base, i) == 0
      decreases i
    {
      DigitMeans(Low(n, base, i - 1));
      ZeroAbove(n, base, i - 1);
      i := i - 1;
    }
    if i == 0 {
      i := i + 1;
      assert n == 0;
      ZeroShift(base, 1);
    } else {
      DigitMeans(Low(n, base, i - 1));
    }
    NumeralDigits(n, base, i);
    ghost var s := Numeral(n, base);
    var o := 0;
    while i >= 0
      invariant -1 <= i && o + i == |s| && o <= |s| + 1
      invariant forall j :: 0 <= j < o && j < |s| ==> str[j] == s[j]
      invariant i == -1 ==> str[|s|] == '\0'
    {
      str[o] := temp[i];
      o := o + 1;
      i := i - 1;
    }
    assert str[..|s|] == s;
  }

  /** The character of a decimal digit. */
  function Character(d: int): (c: char)
    requires 0 <= d < 10
    ensures c == Digit(d)
  {
    DigitMeans(d);
    (d + '0' as int) as char
  }

  lemma DecimalEnds(n: int)
    requires 0 <= n < WORD / 2
    ensures Shift(n, 10, 10) == 0
  {
    var a := n / 10 / 10 / 10 / 10 / 10;
    assert 0 <= a < 21475;
    assert Shift(n, 10, 5) == a && a / 10 / 10 / 10 / 10 / 10 == 0;
    ShiftTwice(n, 10, 5, 5);
  }

  lemma {:induction false} ShiftTwice(n: int, base: nat, j: nat, k: nat)
    requires base >= 2
    ensures Shift(n, base, j + k) == Shift(Shift(n, base, j), base, k)
    decreases j
  {
    if j > 0 {
      ShiftTwice(n / base, base, j - 1, k);
    }
  }

  /** Taking one digit off. */
  lemma Step(n: int, base: nat, k: nat)
    requires base >= 2
    ensures Low(n, base, k) == Shift(n, base, k) % base && Shift(n, base, k + 1) == Shift(n, base, k) / base
    ensures Shift(n, base, 0) == n
  {
    ShiftMore(n, base, k);
  }

  /** _prtl10() */
  method Prtl10(num0: long, str: array<char>)
    requires num0 >= 0 && str.Length == 20
    modifies str
    ensures Holds(str, Numeral(num0, 10))
  {
    hide Shift, Low, Numeral, Wrap;
    Step(num0, 10, 0);
    var temp := new char[11];
    var num := num0;
    temp[0] := '\0';
    var i := 1;
    while i <= 10
      invariant 1 <= i <= 11 && num >= 0 && num == Shift(num0, 10, i - 1) && temp[0] == '\0'
      invariant forall k :: 1 <= k < i ==> temp[k] == Digit(Low(num0, 10, k - 1))
    {
      temp[i] := Character(num % 10);
      Step(num0, 10, i - 1);
      num := num / 10;
      i := i + 1;
    }
    DecimalEnds(num0);
    CopyOut(temp, 10, str, num0, 10);
  }

  /** Masking and shifting a negative long find the digits of its unsigned reading. */
  lemma {:induction false} ShiftUnsigned(n: int, base: nat, k: nat, m: int, j: nat)
    requires base >= 2 && j <= k
    ensures Shift(n + m * Power(base, k), base, j) == Shift(n, base, j) + m * Power(base, k - j)
    decreases j
  {
    if j > 0 {
      var p := m * Power(base, k - 1);
      assert m * Power(base, k) == p * base by {
        Product(m, base, Power(base, k - 1));
      }
      DivShift(n, base, p);
      ShiftUnsigned(n / base, base, k - 1, m, j - 1);
    }
  }

  function Power(base: nat, k: nat): nat {
    if k == 0 then 1 else base * Power(base, k - 1)
  }

  lemma Product(m: int, base: nat, p: int)
    ensures m * (base * p) == m * p * base
  {
  }

  lemma DivShift(n: int, base: nat, p: int)
    requires base >= 2
    ensures (n + p * base) / base == n / base + p && (n + p * base) % base == n % base
  {
    var q, r := n / base, n % base;
    assert n + p * base == (q + p) * base + r;
    Quotient(n + p * base, base, q + p, r);
  }

  lemma Quotient(x: int, base: nat, q: int, r: int)
    requires base >= 2 && 0 <= r < base && x == q * base + r
    ensures x / base == q && x % base == r
  {
    var d: int := x / base - q;
    TimesRange(d, base);
    assert d * base == r - x % base;
  }

  lemma TimesRange(d: int, base: int)
    requires base >= 0
    ensures d >= 1 ==> d * base >= base
    ensures d <= -1 ==> d * base <= -base
  {
  }

  /** The digits below the word length do not depend on how the word is read. */
  lemma SameLow(n: int, base: nat, k: nat, m: int, j: nat)
    requires base >= 2 && j < k
    ensures Low(n + m * Power(base, k), base, j) == Low(n, base, j)
  {
    ShiftUnsigned(n, base, k, m, j);
    Product(m, base, Power(base, k - j - 1));
    DivShift(Shift(n, base, j), base, m * Power(base, k - j - 1));
  }

  lemma Powers()
    ensures Power(16, 8) == WORD && Power(8, 10) * 4 == WORD
  {
    assert Power(16, 4) == 0x1_0000;
    assert Power(16, 5) == 0x10_0000;
    assert Power(16, 6) == 0x100_0000;
    assert Power(16, 7) == 0x1000_0000;
    assert Power(8, 3) == 512;
    assert Power(8, 5) == 512 * 64;
    assert Power(8, 7) == 512 * 64 * 64;
    assert Power(8, 9) == 512 * 64 * 64 * 64;
  }

  /** _prtl16() */
  method Prtl16(num0: long, str: array<char>)
    requires str.Length == 20
    modifies str
    ensures Holds(str, Numeral(Unsigned(num0), 16))
  {
    hide Shift, Low, Numeral, Wrap;
    Step(num0, 16, 0);
    var temp := new char[9];
    var num: int := num0;
    temp[0] := '\0';
    var i := 1;
    while i <= 8
      invariant 1 <= i <= 9 && num == Shift(num0, 16, i - 1) && temp[0] == '\0'
      invariant forall k :: 1 <= k < i ==> temp[k] == Digit(Low(num0, 16, k - 1))
    {
      temp[i] := Digit(num % 16);
      Step(num0, 16, i - 1);
      num := num / 16;
      i := i + 1;
    }
    HexEnds(num0);
    CopyOut(temp, 8, str, Unsigned(num0), 16);
  }

  lemma HexEnds(n: long)
    ensures forall k: nat :: k < 8 ==> Low(Unsigned(n), 16, k) == Low(n, 16, k)
    ensures Shift(Unsigned(n), 16, 8) == 0
  {
    var m := if n < 0 then 1 else 0;
    Powers();
    forall k: nat | k < 8
      ensures Low(Unsigned(n), 16, k) == Low(n, 16, k)
    {
      SameLow(n, 16, 8, m, k);
    }
    ShiftTwice(Unsigned(n), 16, 4, 4);
    assert Shift(Unsigned(n), 16, 4) == Unsigned(n) / 16 / 16 / 16 / 16;
  }

  /** _prtl8(). The eleventh digit is masked with '3', which keeps its two low bits. */
  method Prtl8(num0: long, str: array<char>)
    requires str.Length == 20
    modifies str
    ensures Holds(str, Numeral(Unsigned(num0), 8))
  {
    hide Shift, Low, Numeral, Wrap;
    Step(num0, 8, 0);
    var temp := new char[12];
    var num: int := num0;
    temp[0] := '\0';
    var i := 1;
    while i <= 11
      invariant 1 <= i <= 12 && num == Shift(num0, 8, i - 1) && temp[0] == '\0'
      invariant forall k :: 1 <= k < i ==> temp[k] == Digit(Low(num0, 8, k - 1))
    {
      temp[i] := Character(num % 8);
      Step(num0, 8, i - 1);
      num := num / 8;
      i := i + 1;
    }
    DigitMeans(Low(num0, 8, 10));
    temp[11] := Digit(DigitValue(temp[11]) % 4);
    OctalEnds(num0);
    CopyOut(temp, 11, str, Unsigned(num0), 8);
  }

  lemma OctalEnds(n: long)
    ensures forall k: nat :: k < 10 ==> Low(Unsigned(n), 8, k) == Low(n, 8, k)
    ensures Low(Unsigned(n), 8, 10) == Low(n, 8, 10) % 4
    ensures Shift(Unsigned(n), 8, 11) == 0
  {
    hide Shift;
    var m := if n < 0 then 4 else 0;
    Powers();
    forall k: nat | k < 10
      ensures Low(Unsigned(n), 8, k) == Low(n, 8, k)
    {
      SameLow(n, 8, 10, m, k);
    }
    ShiftUnsigned(n, 8, 10, m, 10);
    OctalTop(Unsigned(n));
    ShiftMore(Unsigned(n), 8, 10);
  }

  lemma OctalTop(u: nat)
    requires u < WORD
    ensures 0 <= Shift(u, 8, 10) < 4
  {
    var a := u / 8 / 8 / 8 / 8 / 8;
    assert 0 <= a < 0x2_0000 && Shift(u, 8, 5) == a;
    ShiftTwice(u, 8, 5, 5);
    assert Shift(a, 8, 5) == a / 8 / 8 / 8 / 8 / 8;
  }

  // ------------------------------------------------------------------
  // Unsigned decimals

  const BILLION: int := 1000000000

  /** The w lowest digits, zeros included. */
  function Fixed(r: nat, w: nat): string
    decreases w
  {
    if w == 0 then [] else Fixed(r / 10, w - 1) + [Digit(r % 10)]
  }

  /** What the first digit counts. */
  lemma {:induction false} Leads(f: nat, r: nat, w: nat)
    requires 1 <= f < 10 && r < Power(10, w)
    ensures Numeral(f * Power(10, w) + r, 10) == [Digit(f)] + Fixed(r, w)
    decreases w
  {
    if w == 0 {
      assert f * Power(10, 0) + r == f;
    } else {
      LeadStep(f, r, Power(10, w - 1));
      Leads(f, r / 10, w - 1);
    }
  }

  lemma LeadStep(f: nat, r: nat, q: nat)
    requires 1 <= f && r < 10 * q
    ensures var n := f * (10 * q) + r;
      r / 10 < q && n >= 10 && n / 10 == f * q + r / 10 && n % 10 == r % 10
  {
    Less(r, 10);
    Product(f, 10, q);
    DivShift(r, 10, f * q);
    TimesRange(f, q);
  }

  lemma Billion()
    ensures Power(10, 9) == BILLION
  {
    assert Power(10, 3) == 1000;
    assert Power(10, 6) == 1000000;
  }

  lemma AddToFirst(n: nat, d: nat)
    requires BILLION <= n && n + d * BILLION < 10 * BILLION
    ensures var s := Numeral(n, 10);
      0 <= s[0] as int + d <= '9' as int && Numeral(n + d * BILLION, 10) == s[0 := (s[0] as int + d) as char]
  {
    hide Numeral, Power, Fixed, Digit;
    var f, r := n / BILLION, n % BILLION;
    Billion();
    Leads(f, r, 9);
    Leads(f + d, r, 9);
    MoreDigit(f, d);
  }

  lemma MoreDigit(f: nat, d: nat)
    requires f + d < 10
    ensures Digit(f) as int + d <= '9' as int && Digit(f + d) == (Digit(f) as int + d) as char
  {
    DigitMeans(f);
    DigitMeans(f + d);
  }

  /**
   The u conversion: a negative long is brought into range by subtracting a thousand million
   until it is not negative, and the count is added to the first digit.
   */
  method PrintUnsigned(arg: long, str: array<char>)
    requires str.Length == 20
    modifies str
    ensures Holds(str, Numeral(Unsigned(arg), 10))
  {
    hide Numeral;
    var num: long := arg;
    var digit1 := 0;
    while num < 0
      invariant digit1 >= 0 && Unsigned(num) == Unsigned(arg) - digit1 * BILLION
      invariant digit1 > 0 ==> Unsigned(num) >= BILLION
      decreases Unsigned(num)
    {
      num := Wrap(num - BILLION);
      digit1 := digit1 + 1;
    }
    Prtl10(num, str);
    if digit1 > 0 {
      AddToFirst(num, digit1);
    } else {
      NumeralMeans(num, 10);
    }
    ghost var s := Numeral(num, 10);
    assert str[0] == s[0];
    str[0] := (str[0] as int + digit1) as char;
    assert str[..|s|] == s[0 := str[0]];
  }

  // ------------------------------------------------------------------
  // One conversion

  datatype Conversion = D | U | O | X

  function Repeat(c: char, n: int): string {
    if n <= 0 then [] else [c] + Repeat(c, n - 1)
  }

  /** A numeral in a field: the sign before the zeros that fill it, but after blanks. */
  function Field(minus: bool, s: string, leftjust: bool, fill: char, fmin: int): string {
    var width := if 0 <= fmin <= 80 then fmin else 0;
    var sign := if minus then "-" else "";
    var pad := Repeat(fill, width - |s| - |sign|);
    (if fill == '0' then sign else "") + (if leftjust then "" else pad) + (if fill == ' ' then sign else "")
    + s + (if leftjust then pad else "")
  }

  /** The distance from 0; for the least long this is not a long. */
  function Magnitude(x: long): nat {
    if x < 0 then -(x as int) else x
  }

  /** What a conversion prints. */
  function Printed(f: Conversion, arg: long, leftjust: bool, fill: char, fmin: int): string {
    match f
    case D => Field(arg < 0, Numeral(Magnitude(arg), 10), leftjust, fill, fmin)
    case U => Field(false, Numeral(Unsigned(arg), 10), leftjust, fill, fmin)
    case O => Field(false, Numeral(Unsigned(arg), 8), leftjust, fill, fmin)
    case X => Field(false, Numeral(Unsigned(arg), 16), leftjust, fill, fmin)
  }

  lemma {:induction false} RepeatMore(c: char, n: nat)
    ensures Repeat(c, n) + [c] == Repeat(c, n + 1) && |Repeat(c, n)| == n
    decreases n
  {
    if n > 0 {
      RepeatMore(c, n - 1);
    }
  }

  /** Calling the output function for each fill character. */
  method Pad(out0: string, fill: char, leading: int) returns (out: string)
    ensures out == out0 + Repeat(fill, leading)
  {
    out := out0;
    var i := 0;
    while i < leading
      invariant 0 <= i && (i <= leading || i == 0) && out == out0 + Repeat(fill, i)
    {
      RepeatMore(fill, i);
      assert out0 + (Repeat(fill, i) + [fill]) == out0 + Repeat(fill, i) + [fill];
      out := out + [fill];
      i := i + 1;
    }
  }

  /** The length of a C string. */
  method Length(str: array<char>, ghost s: string) returns (length: nat)
    requires Holds(str, s) && forall c :: c in s ==> c != '\0'
    ensures length == |s|
  {
    assert forall i :: 0 <= i < |s| ==> str[i] != '\0' by {
      assert forall i :: 0 <= i < |s| ==> str[i] == str[..|s|][i] && s[i] in s;
    }
    length := 0;
    while str[length] != '\0'
      invariant length <= |s|
      decreases |s| - length
    {
      length := length + 1;
    }
  }

  lemma NumeralIsText(n: nat, base: nat)
    requires 2 <= base <= 16
    ensures forall c :: c in Numeral(n, base) ==> c != '\0'
  {
    NumeralMeans(n, base);
  }

  /** The digits a conversion leaves in the buffer. */
  method Digits(f: Conversion, arg: long, str: array<char>) returns (minus: bool, ghost s: string)
    requires str.Length == 20
    modifies str
    ensures Holds(str, s) && minus == (f.D? && arg < 0) && forall c :: c in s ==> c != '\0'
    ensures s == match f
                 case D => Numeral(Magnitude(arg), 10)
                 case U => Numeral(Unsigned(arg), 10)
                 case O => Numeral(Unsigned(arg), 8)
                 case X => Numeral(Unsigned(arg), 16)
  {
    hide Numeral;
    minus := false;
    match f {
      case D =>
        var num: long := arg;
        if num < 0 {
          minus := true;
          num := Wrap(-(num as int));
        }
        PrintUnsigned(num, str);
        s := Numeral(Magnitude(arg), 10);
        NumeralIsText(Magnitude(arg), 10);
      case U =>
        PrintUnsigned(arg, str);
        s := Numeral(Unsigned(arg), 10);
        NumeralIsText(Unsigned(arg), 10);
      case O =>
        Prtl8(arg, str);
        s := Numeral(Unsigned(arg), 8);
        NumeralIsText(Unsigned(arg), 8);
      case X =>
        Prtl16(arg, str);
        s := Numeral(Unsigned(arg), 16);
        NumeralIsText(Unsigned(arg), 16);
    }
  }

  /** The end of _doprnt(): sign, fill and digits. */
  method Emit(minus: bool, s: string, leftjust: bool, fill: char, fmin0: int) returns (out: string)
    requires fill == ' ' || fill == '0'
    ensures out == Field(minus, s, leftjust, fill, fmin0)
  {
    hide Repeat;
    var fmin := if fmin0 > 80 || fmin0 < 0 then 0 else fmin0;
    var leading := 0;
    if fmin != 0 {
      leading := fmin - |s|;
      if minus {
        leading := leading - 1;
      }
    }
    NoPad(fill, leading, fmin - |s| - (if minus then 1 else 0));
    ghost var pad := Repeat(fill, leading);
    out := "";
    if minus && fill == '0' {
      out := out + "-";
    }
    if !leftjust {
      out := Pad(out, fill, leading);
    }
    if minus && fill == ' ' {
      out := out + "-";
    }
    out := out + s;
    if leftjust {
      out := Pad(out, fill, leading);
    }
    assert pad == Repeat(fill, (if 0 <= fmin0 <= 80 then fmin0 else 0) - |s| - |if minus then "-" else ""|);
    Same((if fill == '0' && minus then "-" else ""), (if leftjust then "" else pad));
  }

  /** The numeric cases of _doprnt(). */
  method Convert(f: Conversion, arg: long, leftjust: bool, fill: char, fmin: int) returns (out: string)
    requires fill == ' ' || fill == '0'
    ensures out == Printed(f, arg, leftjust, fill, fmin)
  {
    hide Numeral, Field;
    var str := new char[20];
    var minus, s := Digits(f, arg, str);
    var length := Length(str, s);
    out := Emit(minus, str[..length], leftjust, fill, fmin);
  }

  lemma Same(a: string, b: string)
    ensures "" + a == a && a + "" == a && "" + b == b && b + "" == b
  {
  }

  lemma NoPad(c: char, a: int, b: int)
    ensures a <= 0 && b <= 0 ==> Repeat(c, a) == Repeat(c, b) == []
  {
  }
}
