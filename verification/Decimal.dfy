/** Decimal numbers as printf writes them and as sscanf and atoi read them. */
module Decimals {
  import opened Common

  predicate IsDigit(c: char) {
    '0' <= c <= '9'
  }

  predicate AllDigits(s: string) {
    forall i | 0 <= i < |s| :: IsDigit(s[i])
  }

  /** White space for isspace in the C locale. */
  predicate IsSpace(c: char) {
    c == ' ' || 9 <= c as int <= 13
  }

  function DigitChar(d: nat): (c: char)
    requires d < 10
    ensures IsDigit(c)
  {
    ('0' as int + d) as char
  }

  /** The decimal digits of a number, without leading zeros. */
  function Digits(n: nat): string {
    if n < 10 then [DigitChar(n)] else Digits(n / 10) + [DigitChar(n % 10)]
  }

  /** printf("%d"). */
  function Decimal(i: int): string {
    if i < 0 then "-" + Digits(-i) else Digits(i)
  }

  function DigitsValue(s: string): nat
    requires AllDigits(s)
  {
    if s == "" then 0 else 10 * DigitsValue(s[..|s| - 1]) + (s[|s| - 1] as int - '0' as int)
  }

  function SkipSpaces(s: string): string {
    if s != "" && IsSpace(s[0]) then SkipSpaces(s[1..]) else s
  }

  function LeadingDigits(s: string): (d: string)
    ensures AllDigits(d)
  {
    if s != "" && IsDigit(s[0]) then [s[0]] + LeadingDigits(s[1..]) else ""
  }

  /** Optional white space, an optional sign, then as many digits as there are. */
  function ScanSign(s: string): bool {
    var t := SkipSpaces(s);
    t != "" && t[0] == '-'
  }

  function ScanDigits(s: string): (d: string)
    ensures AllDigits(d)
  {
    var t := SkipSpaces(s);
    LeadingDigits(if t != "" && (t[0] == '-' || t[0] == '+') then t[1..] else t)
  }

  /** strtol: saturates at the 64-bit limits; no digits give 0. */
  function Strtol(s: string): int {
    var v: int := DigitsValue(ScanDigits(s));
    if ScanSign(s) then (if v > TWO_63 then -TWO_63 else -v)
    else (if v >= TWO_63 then TWO_63 - 1 else v)
  }

  /** strtoul: saturates above, and negates modulo 2^64. */
  function Strtoul(s: string): int {
    var v: int := DigitsValue(ScanDigits(s));
    if v >= TWO_64 then TWO_64 - 1
    else if ScanSign(s) then (TWO_64 - v) % TWO_64
    else v
  }

  function Atoi(s: string): int {
    ToInt32(Strtol(s))
  }

  /** sscanf("%u"): without digits the variable keeps its old contents. */
  function ScanUnsigned(s: string, oldContents: nat): int {
    if ScanDigits(s) == "" then oldContents else ToUint32(Strtoul(s))
  }

  // ---------------------------------------------------------------------------------

  lemma {:induction false} DigitsRoundTrip(n: nat)
    ensures AllDigits(Digits(n)) && Digits(n) != "" && DigitsValue(Digits(n)) == n
  {
    if n >= 10 {
      DigitsRoundTrip(n / 10);
      var front := Digits(n / 10);
      assert Digits(n)[..|front|] == front;
    } else {
      assert Digits(n)[..0] == "";
      assert DigitsValue(Digits(n)[..0]) == 0;
    }
  }

  /** Only the number 0 starts with a zero. */
  lemma {:induction false} NoLeadingZero(n: nat)
    ensures Digits(n) != "" && (Digits(n)[0] == '0' <==> n == 0)
  {
    if n >= 10 {
      NoLeadingZero(n / 10);
    }
  }

  lemma {:induction false} LeadingDigitsAll(s: string)
    requires AllDigits(s)
    ensures LeadingDigits(s) == s
  {
    if s != "" {
      LeadingDigitsAll(s[1..]);
    }
  }

  lemma ScanDecimal(i: int)
    ensures Decimal(i) != ""
    ensures ScanSign(Decimal(i)) == (i < 0)
    ensures ScanDigits(Decimal(i)) == Digits(if i < 0 then -i else i)
    ensures DigitsValue(ScanDigits(Decimal(i))) == if i < 0 then -i else i
  {
    var d := Digits(if i < 0 then -i else i);
    DigitsRoundTrip(if i < 0 then -i else i);
    LeadingDigitsAll(d);
    assert IsDigit(d[0]);
    if i < 0 {
      assert Decimal(i)[1..] == d;
    }
  }

  lemma StrtolDecimal(i: int)
    requires -TWO_31 <= i < TWO_31
    ensures Strtol(Decimal(i)) == i
  {
    ScanDecimal(i);
  }

  lemma ToInt32Fits(i: int)
    requires -TWO_31 <= i < TWO_31
    ensures ToInt32(i) == i
  {
  }

  lemma AtoiDecimal(i: int)
    requires -TWO_31 <= i < TWO_31
    ensures Atoi(Decimal(i)) == i
  {
    StrtolDecimal(i);
    ToInt32Fits(i);
  }

  lemma ScanUnsignedDigits(n: nat, oldContents: nat)
    requires n < TWO_32
    ensures ScanUnsigned(Digits(n), oldContents) == n
  {
    ScanDecimal(n);
    DigitsRoundTrip(n);
  }

  /** The characters of a printed number. */
  lemma DecimalCharacters(i: int)
    ensures Decimal(i) != ""
    ensures forall k | 0 <= k < |Decimal(i)| :: IsDigit(Decimal(i)[k]) || Decimal(i)[k] == '-'
    ensures IsDigit(Decimal(i)[|Decimal(i)| - 1])
  {
    DigitsRoundTrip(if i < 0 then -i else i);
  }
}
