/**
 * The few C library routines the core leans on, over C strings: the
 * character classes of <ctype.h> in the C locale and strtol, as glibc
 * implements them for base 10 and base 0.
 *
 * A C string is a `string` read up to its first NUL; reading at or past the
 * end of the Dafny string yields the terminating NUL.
 */
module LibC {

  import opened Wrappers

  const Nul: char := '\0'

  /** The character a `const char *` at offset `i` points to. */
  function CharAt(s: string, i: nat): char
  {
    if i < |s| then s[i] else Nul
  }

  /** isspace in the C locale. */
  predicate IsSpace(c: char)
  {
    c == ' ' || c == '\t' || c == '\n' || c == '\r' || c == '\U{000B}' || c == '\U{000C}'
  }

  /** isdigit. */
  predicate IsDigit(c: char)
  {
    '0' <= c <= '9'
  }

  /** The value of `c` as a digit in any base up to 16, or 16 if it is none. */
  function DigitValue(c: char): (d: nat)
    ensures d <= 16
    ensures IsDigit(c) ==> d == (c - '0') as nat
    ensures d < 10 <==> IsDigit(c)
  {
    if IsDigit(c) then (c - '0') as nat
    else if 'a' <= c <= 'f' then (c - 'a') as nat + 10
    else if 'A' <= c <= 'F' then (c - 'A') as nat + 10
    else 16
  }

  /** `c` is a digit of base `radix`. */
  predicate IsDigitIn(c: char, radix: nat)
  {
    DigitValue(c) < radix
  }

  /** The first index at or after `i` that is not a white-space character. */
  function SkipSpaces(s: string, i: nat): (j: nat)
    requires i <= |s|
    ensures i <= j <= |s|
    ensures !IsSpace(CharAt(s, j))
    ensures forall k :: i <= k < j ==> IsSpace(s[k])
    decreases |s| - i
  {
    if i < |s| && IsSpace(s[i]) then SkipSpaces(s, i + 1) else i
  }

  /** The first index at or after `i` that is not a digit of base `radix`. */
  function DigitsEnd(s: string, i: nat, radix: nat): (j: nat)
    requires i <= |s| && radix <= 16
    ensures i <= j <= |s|
    ensures !IsDigitIn(CharAt(s, j), radix)
    ensures forall k :: i <= k < j ==> IsDigitIn(s[k], radix)
    decreases |s| - i
  {
    if i < |s| && IsDigitIn(s[i], radix) then DigitsEnd(s, i + 1, radix) else i
  }

  /** The value of a run of base-`radix` digits, most significant first. */
  function ValueOf(digits: string, radix: nat): nat
  {
    if digits == [] then 0
    else radix * ValueOf(digits[..|digits| - 1], radix) + DigitValue(digits[|digits| - 1])
  }

  /** The bases the core passes to strtol. */
  datatype Base = Base10 | Base0

  /** The range of a 64-bit `long`. */
  const LongMin: int := -0x8000_0000_0000_0000
  const LongMax: int := 0x7fff_ffff_ffff_ffff

  /** Where strtol's digits begin and in which base it reads them. */
  datatype Prefix = Prefix(negative: bool, radix: nat, digitsAt: nat)

  /**
   * Leading white space, an optional sign and, for base 0, the "0x"/"0X"
   * prefix of a hexadecimal number (only when a hex digit follows) or the
   * "0" of an octal one.
   */
  function ScanPrefix(s: string, base: Base): (p: Prefix)
    ensures p.radix in {8, 10, 16} && p.digitsAt <= |s|
  {
    var i := SkipSpaces(s, 0);
    var negative := CharAt(s, i) == '-';
    var j := if CharAt(s, i) == '-' || CharAt(s, i) == '+' then i + 1 else i;
    var j := if j <= |s| then j else |s|;
    if base == Base10 then Prefix(negative, 10, j)
    else if CharAt(s, j) == '0' && (CharAt(s, j + 1) == 'x' || CharAt(s, j + 1) == 'X')
            && IsDigitIn(CharAt(s, j + 2), 16) then Prefix(negative, 16, j + 2)
    else if CharAt(s, j) == '0' then Prefix(negative, 8, j)
    else Prefix(negative, 10, j)
  }

  /**
   * strtol(s, NULL, base): the longest run of digits after the prefix, with
   * its sign; no digits at all gives 0. None is the ERANGE case (errno set),
   * a value outside the range of `long`.
   */
  function StrToL(s: string, base: Base): (r: Option<int>)
    ensures r.Some? ==> LongMin <= r.value <= LongMax
  {
    var p := ScanPrefix(s, base);
    var e := DigitsEnd(s, p.digitsAt, p.radix);
    var magnitude: int := ValueOf(s[p.digitsAt..e], p.radix);
    var v := if p.negative then -magnitude else magnitude;
    if LongMin <= v <= LongMax then Some(v) else None
  }

  /** The C operator `&` on non-negative integers, bit by bit from the lowest. */
  function BitAnd(a: nat, b: nat): (r: nat)
    ensures r <= a && r <= b
  {
    if a == 0 || b == 0 then 0
    else 2 * BitAnd(a / 2, b / 2) + (if a % 2 == 1 && b % 2 == 1 then 1 else 0)
  }

  /** A mask whose lowest bit is clear clears the lowest bit. */
  lemma BitAndEvenMask(a: nat, c: nat)
    ensures BitAnd(a, 2 * c) == 2 * BitAnd(a / 2, c)
  {
    if a != 0 && c != 0 {
      assert (2 * c) / 2 == c && (2 * c) % 2 == 0;
    }
  }

  /** `a & 0xff00` has its low eight bits clear. */
  lemma BitAndHighByte(a: nat)
    ensures BitAnd(a, 0xff00) % 0x100 == 0
  {
    var a1 := a / 2;
    var a2 := a1 / 2;
    var a3 := a2 / 2;
    var a4 := a3 / 2;
    var a5 := a4 / 2;
    var a6 := a5 / 2;
    var a7 := a6 / 2;
    var a8 := a7 / 2;
    BitAndEvenMask(a, 0x7f80);
    BitAndEvenMask(a1, 0x3fc0);
    BitAndEvenMask(a2, 0x1fe0);
    BitAndEvenMask(a3, 0xff0);
    BitAndEvenMask(a4, 0x7f8);
    BitAndEvenMask(a5, 0x3fc);
    BitAndEvenMask(a6, 0x1fe);
    BitAndEvenMask(a7, 0xff);
    assert BitAnd(a, 0xff00) == 0x100 * BitAnd(a8, 0xff);
  }

  /** Every character of `s` is a digit of base `radix`. */
  predicate AllDigitsIn(s: string, radix: nat)
  {
    forall k :: 0 <= k < |s| ==> IsDigitIn(s[k], radix)
  }

  /** The digit run starting at `i` reaches the end of a string made of digits. */
  lemma DigitsReachEnd(s: string, i: nat, radix: nat)
    requires i <= |s| && radix <= 16 && AllDigitsIn(s[i..], radix)
    ensures DigitsEnd(s, i, radix) == |s|
  {
  }

  /** strtol's value of a magnitude: the number, or ERANGE outside `long`. */
  function InLong(v: int): Option<int>
  {
    if LongMin <= v <= LongMax then Some(v) else None
  }

  /**
   * strtol reads a run of decimal digits as its decimal value, in base 10
   * and in base 0 when the run does not start with 0.
   */
  lemma {:induction false} StrToLReadsDecimal(s: string, base: Base)
    requires s != [] && AllDigitsIn(s, 10) && (base == Base0 ==> s[0] != '0')
    ensures StrToL(s, base) == InLong(ValueOf(s, 10))
  {
    assert IsDigitIn(s[0], 10);
    assert SkipSpaces(s, 0) == 0;
    assert ScanPrefix(s, base) == Prefix(false, 10, 0);
    assert s[0..] == s;
    DigitsReachEnd(s, 0, 10);
    assert s[0..|s|] == s;
  }

  /** A minus sign before the digits negates the value. */
  lemma {:induction false} StrToLReadsNegative(s: string, base: Base)
    requires s != [] && AllDigitsIn(s, 10) && (base == Base0 ==> s[0] != '0')
    ensures StrToL(['-'] + s, base) == InLong(-(ValueOf(s, 10) as int))
  {
    var t := ['-'] + s;
    assert IsDigitIn(s[0], 10);
    assert CharAt(t, 0) == '-' && CharAt(t, 1) == s[0];
    var p := ScanPrefix(t, base);
    assert p == Prefix(true, 10, 1) by {
      assert SkipSpaces(t, 0) == 0;
    }
    assert t[1..] == s;
    DigitsReachEnd(t, 1, 10);
    var magnitude: int := ValueOf(t[1..DigitsEnd(t, 1, 10)], 10);
    assert magnitude == ValueOf(s, 10) by {
      assert t[1..DigitsEnd(t, 1, 10)] == s;
    }
  }

  /** In base 0, "0x" and hexadecimal digits read as a hexadecimal number. */
  lemma {:induction false} StrToLReadsHex(h: string)
    requires h != [] && AllDigitsIn(h, 16)
    ensures StrToL(['0', 'x'] + h, Base0) == InLong(ValueOf(h, 16))
  {
    var t := ['0', 'x'] + h;
    assert IsDigitIn(h[0], 16);
    assert CharAt(t, 0) == '0' && CharAt(t, 1) == 'x' && CharAt(t, 2) == h[0];
    var p := ScanPrefix(t, Base0);
    assert p == Prefix(false, 16, 2) by {
      assert SkipSpaces(t, 0) == 0;
    }
    assert t[2..] == h;
    DigitsReachEnd(t, 2, 16);
    assert t[p.digitsAt..DigitsEnd(t, p.digitsAt, p.radix)] == h;
  }

  /** A leading zero digit does not change the value. */
  lemma {:induction false} ValueOfLeadingZero(o: string, radix: nat)
    ensures ValueOf("0" + o, radix) == ValueOf(o, radix)
    decreases |o|
  {
    if o == [] {
      assert ("0" + o)[..0] == [];
    } else {
      var z := "0" + o;
      assert z[..|z| - 1] == "0" + o[..|o| - 1];
      assert z[|z| - 1] == o[|o| - 1];
      ValueOfLeadingZero(o[..|o| - 1], radix);
    }
  }

  /** In base 0, a leading 0 followed by octal digits reads as an octal number. */
  lemma {:induction false} StrToLReadsOctal(o: string)
    requires AllDigitsIn(o, 8)
    ensures StrToL("0" + o, Base0) == InLong(ValueOf(o, 8))
  {
    var t := "0" + o;
    assert t[0] == '0' && t[1..] == o;
    assert SkipSpaces(t, 0) == 0;
    assert o != [] ==> t[1] == o[0] && IsDigitIn(o[0], 8);
    assert ScanPrefix(t, Base0) == Prefix(false, 8, 0);
    assert t[0..] == t;
    forall k | 0 <= k < |t|
      ensures IsDigitIn(t[k], 8)
    {
      if k > 0 {
        assert t[k] == o[k - 1];
      }
    }
    DigitsReachEnd(t, 0, 8);
    assert t[0..|t|] == t;
    ValueOfLeadingZero(o, 8);
  }
}
