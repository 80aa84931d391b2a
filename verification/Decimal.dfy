/** Integers printed in decimal, and read back. */
module Decimal {

  predicate IsDigit(c: char) {
    '0' <= c <= '9'
  }

  function DigitChar(d: nat): char
    requires d < 10
  {
    ('0' as int + d) as char
  }

  function DigitValue(c: char): nat
    requires IsDigit(c)
  {
    c as int - '0' as int
  }

  function PrintNat(n: nat): string {
    if n < 10 then [DigitChar(n)] else PrintNat(n / 10) + [DigitChar(n % 10)]
  }

  function PrintInt(n: int): string {
    if n < 0 then "-" + PrintNat(-n) else PrintNat(n)
  }

  /** Continues reading digits behind the value read so far; returns the value and what follows it. */
  function ReadDigits(s: string, value: nat): (r: (nat, string))
    ensures |r.1| <= |s|
    decreases |s|
  {
    if s == "" || !IsDigit(s[0]) then (value, s) else ReadDigits(s[1..], 10 * value + DigitValue(s[0]))
  }

  function ReadInt(s: string): (r: (int, string))
    ensures |r.1| <= |s|
  {
    if s != "" && s[0] == '-' then
      var (n: int, rest) := ReadDigits(s[1..], 0);
      (-n, rest)
    else
      var (n: int, rest) := ReadDigits(s, 0);
      (n, rest)
  }

  /** No digit follows. */
  predicate Stops(rest: string) {
    rest == "" || !IsDigit(rest[0])
  }

  lemma {:induction false} ReadPrintedNat(n: nat, rest: string)
    ensures ReadDigits(PrintNat(n) + rest, 0) == ReadDigits(rest, n)
    ensures PrintNat(n) != "" && IsDigit(PrintNat(n)[0])
    decreases n
  {
    if n < 10 {
      assert ([DigitChar(n)] + rest)[1..] == rest;
    } else {
      var d := [DigitChar(n % 10)];
      ReadPrintedNat(n / 10, d + rest);
      assert PrintNat(n) + rest == PrintNat(n / 10) + (d + rest);
      assert (d + rest)[1..] == rest;
    }
  }

  /** A printed integer reads back, whatever follows it. */
  lemma ReadPrinted(n: int, rest: string)
    requires Stops(rest)
    ensures ReadInt(PrintInt(n) + rest) == (n, rest)
  {
    if n < 0 {
      ReadPrintedNat(-n, rest);
      MinusRead(PrintNat(-n), rest);
    } else {
      ReadPrintedNat(n, rest);
    }
  }

  lemma MinusRead(digits: string, rest: string)
    ensures ("-" + digits + rest)[1..] == digits + rest && ("-" + digits + rest)[0] == '-'
  {
  }

  /** The notation is the usual one. */
  lemma DecimalExamples()
    ensures PrintInt(0) == "0" && PrintInt(7) == "7" && PrintInt(-12) == "-12" && PrintInt(1920) == "1920"
    ensures PrintInt(345689) == "345689"
  {
    assert PrintNat(19) == "19" && PrintNat(192) == "192" && PrintNat(1920) == "1920";
    assert PrintNat(34) == "34" && PrintNat(345) == "345" && PrintNat(3456) == "3456" && PrintNat(34568) == "34568";
  }
}
