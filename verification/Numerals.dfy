/** Numbers as `printf` prints them and as C++ reads them. */
module Numerals {
  import opened Basics

  // ----- printing

  function DigitChar(d: nat): (c: char)
    requires d < 16
  {
    if d < 10 then ('0' as int + d) as char else ('a' as int + d - 10) as char
  }

  /** `%d` of a number that is not negative. */
  function Dec(n: nat): (s: string)
    ensures s != ""
  {
    if n < 10 then [DigitChar(n)] else Dec(n / 10) + [DigitChar(n % 10)]
  }

  /** `%02x` of a byte. */
  function Hex2(b: nat): (s: string)
    requires b < 256
    ensures |s| == 2
  {
    [DigitChar(b / 16), DigitChar(b % 16)]
  }

  // ----- reading

  predicate IsDigit(c: char) { '0' <= c <= '9' }

  predicate IsOctalDigit(c: char) { '0' <= c <= '7' }

  predicate IsHexDigit(c: char) { IsDigit(c) || 'a' <= c <= 'f' || 'A' <= c <= 'F' }

  function HexValue(c: char): (v: nat)
    requires IsHexDigit(c)
    ensures v < 16
    ensures IsDigit(c) ==> v < 10
    ensures IsOctalDigit(c) ==> v < 8
  {
    if IsDigit(c) then c as int - '0' as int
    else if 'a' <= c <= 'f' then c as int - 'a' as int + 10
    else c as int - 'A' as int + 10
  }

  predicate AllDigits(s: string) { forall i :: 0 <= i < |s| ==> IsDigit(s[i]) }

  /** The value of a run of digits in the given base, most significant digit first. */
  function Positional(s: string, base: nat): nat
    requires AllDigits(s)
  {
    if s == "" then 0 else Positional(s[..|s| - 1], base) * base + HexValue(s[|s| - 1])
  }

  /** The largest value an integer literal may have: that of a 64-bit `long long`. */
  const LITERAL_MAX := 0x7FFF_FFFF_FFFF_FFFF

  /**
   * Section 5.13.2 of ISO/IEC 14882:2017 for literals without a suffix: a leading zero
   * makes the literal octal.
   */
  function IntegerLiteral(s: string): Option<nat> {
    if s == "" || !AllDigits(s) then None
    else if s[0] == '0' && exists i :: 0 <= i < |s| && !IsOctalDigit(s[i]) then None
    else
      var v := Positional(s, if s[0] == '0' then 8 else 10);
      if v <= LITERAL_MAX then Some(v) else None
  }

  // ----- reading back what was printed

  lemma {:induction false} DecRead(n: nat)
    ensures AllDigits(Dec(n)) && Positional(Dec(n), 10) == n
    ensures Dec(n)[0] == '0' <==> n == 0
  {
    if n >= 10 {
      DecRead(n / 10);
      var s := Dec(n / 10) + [DigitChar(n % 10)];
      assert s[..|s| - 1] == Dec(n / 10);
    } else {
      assert Dec(n)[..0] == "";
    }
  }

  /** `%d` is inverted by the integer literal rule, zero (an octal literal) included. */
  lemma {:induction false} IntegerLiteralOfDec(n: nat)
    requires n <= LITERAL_MAX
    ensures IntegerLiteral(Dec(n)) == Some(n)
  {
    DecRead(n);
    if n == 0 {
      assert Dec(0)[..0] == "" && Positional(Dec(0), 8) == 0;
    }
  }

  lemma {:induction false} DecInjective(m: nat, n: nat)
    requires Dec(m) == Dec(n)
    ensures m == n
  {
    DecRead(m);
    DecRead(n);
  }

  predicate IsPrintedDigit(c: char) { '0' <= c <= '9' || 'a' <= c <= 'f' }

  lemma {:induction false} Hex2Read(b: nat)
    requires b < 256
    ensures IsPrintedDigit(Hex2(b)[0]) && IsPrintedDigit(Hex2(b)[1])
    ensures IsHexDigit(Hex2(b)[0]) && IsHexDigit(Hex2(b)[1])
    ensures HexValue(Hex2(b)[0]) * 16 + HexValue(Hex2(b)[1]) == b
  {
  }
}
