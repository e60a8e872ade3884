/** Decimal and hexadecimal numerals, as the printf-style formatting of the program writes them. */
module Numerals {

  predicate IsDigit(c: char) {
    '0' <= c <= '9'
  }

  predicate AllDigits(s: string) {
    forall i :: 0 <= i < |s| ==> IsDigit(s[i])
  }

  function DigitChar(d: nat): (c: char)
    requires d < 10
    ensures IsDigit(c) && c as int - '0' as int == d
  {
    ('0' as int + d) as char
  }

  /** The decimal numeral of n, without leading zeros. */
  function Decimal(n: nat): (s: string)
    ensures |s| > 0 && AllDigits(s)
  {
    if n < 10 then [DigitChar(n)] else Decimal(n / 10) + [DigitChar(n % 10)]
  }

  /** The number a string of digits denotes; the empty string denotes 0. */
  function DecimalValue(s: string): nat
    requires AllDigits(s)
  {
    if s == [] then 0 else 10 * DecimalValue(s[..|s| - 1]) + (s[|s| - 1] as int - '0' as int)
  }

  lemma {:induction false} DecimalRoundTrip(n: nat)
    ensures DecimalValue(Decimal(n)) == n
  {
    if n >= 10 {
      DecimalRoundTrip(n / 10);
      assert Decimal(n)[..|Decimal(n)| - 1] == Decimal(n / 10);
    } else {
      assert Decimal(n)[..0] == [];
    }
  }

  function PowerOfTen(n: nat): nat { if n == 0 then 1 else 10 * PowerOfTen(n - 1) }

  /** Digits count from the left: the first one stands for the highest power of ten. */
  lemma {:induction false} LeadingDigit(c: char, rest: string)
    requires IsDigit(c) && AllDigits(rest)
    ensures DecimalValue([c] + rest) == (c as int - '0' as int) * PowerOfTen(|rest|) + DecimalValue(rest)
  {
    var s := [c] + rest;
    if rest == [] {
      assert s[..0] == [] && DecimalValue(s) == 10 * DecimalValue(s[..0]) + (c as int - '0' as int);
    } else {
      var front := rest[..|rest| - 1];
      assert s[..|s| - 1] == [c] + front;
      LeadingDigit(c, front);
    }
  }

  /** No leading zero is written. */
  lemma {:induction false} NoLeadingZero(n: nat)
    ensures Decimal(n)[0] == '0' <==> n == 0
    ensures n == 0 ==> Decimal(n) == "0"
  {
    if n >= 10 { NoLeadingZero(n / 10); }
  }

  lemma DecimalInjective(m: nat, n: nat)
    requires Decimal(m) == Decimal(n)
    ensures m == n
  {
    DecimalRoundTrip(m);
    DecimalRoundTrip(n);
  }

  function HexChar(d: nat): char
    requires d < 16
  {
    "0123456789ABCDEF"[d]
  }

  /** FXSYS_IntToFourHexChars, whose argument is cut to 16 bits. */
  function Hex4(n: nat): (s: string)
    ensures |s| == 4
  {
    [HexChar(n % 0x10000 / 4096), HexChar(n / 256 % 16), HexChar(n / 16 % 16), HexChar(n % 16)]
  }

  predicate IsHexDigit(c: char) {
    IsDigit(c) || 'A' <= c <= 'F' || 'a' <= c <= 'f'
  }

  /** FXSYS_HexCharToInt. */
  function HexValue(c: char): nat {
    if IsDigit(c) then c as int - '0' as int
    else if 'A' <= c <= 'F' then c as int - 'A' as int + 10
    else if 'a' <= c <= 'f' then c as int - 'a' as int + 10
    else 0
  }

  /** Digits above nine may be written small or large. */
  lemma HexCaseDoesNotMatter(c: char)
    requires 'a' <= c <= 'f'
    ensures HexValue(c) == HexValue((c as int - 32) as char) == c as int - 87
  {
  }

  lemma HexCharValue(d: nat)
    requires d < 16
    ensures IsHexDigit(HexChar(d)) && HexValue(HexChar(d)) == d
  {
  }
}
