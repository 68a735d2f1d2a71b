/** Decimal numerals: printing, and reading back as Go's strconv does. */
module Decimals {
  import opened Basics

  function DigitChar(d: nat): char
    requires d < 10
  {
    ('0' as int + d) as char
  }

  predicate IsDigit(c: char) {
    '0' <= c <= '9'
  }

  function DigitValue(c: char): nat
    requires IsDigit(c)
  {
    c as int - '0' as int
  }

  predicate AllDigits(s: string) {
    forall i :: 0 <= i < |s| ==> IsDigit(s[i])
  }

  /** The numeral of `n`, without leading zeros. */
  function PrintNat(n: nat): (s: string)
    ensures |s| > 0 && AllDigits(s)
  {
    if n < 10 then [DigitChar(n)] else PrintNat(n / 10) + [DigitChar(n % 10)]
  }

  function PrintInt(n: int): string {
    if n < 0 then "-" + PrintNat(-n) else PrintNat(n)
  }

  /** The number a row of digits stands for. */
  function ValueOf(s: string): nat
    requires AllDigits(s)
  {
    if s == [] then 0 else 10 * ValueOf(s[..|s| - 1]) + DigitValue(s[|s| - 1])
  }

  function Pow10(p: nat): (r: nat)
    ensures r > 0
  {
    if p == 0 then 1 else 10 * Pow10(p - 1)
  }

  /** Printing and reading back is the identity; there is no leading zero except in "0" itself. */
  lemma {:induction false} PrintNatReads(n: nat)
    ensures ValueOf(PrintNat(n)) == n
    ensures n > 0 ==> PrintNat(n)[0] != '0'
    ensures n == 0 ==> PrintNat(n) == "0"
  {
    var s := PrintNat(n);
    if n < 10 {
      assert s[..0] == [];
    } else {
      PrintNatReads(n / 10);
      assert s[..|s| - 1] == PrintNat(n / 10);
    }
  }

  /** A numeral of k digits without a leading zero stands for a number between 10^(k-1) and 10^k. */
  lemma {:induction false} PrintNatLength(n: nat)
    requires n > 0
    ensures Pow10(|PrintNat(n)| - 1) <= n < Pow10(|PrintNat(n)|)
  {
    if n >= 10 {
      PrintNatLength(n / 10);
    } else {
      assert Pow10(1) == 10;
    }
  }

  lemma Scale(v: nat, p: nat)
    ensures 10 * (v * p) == v * (10 * p)
  {
  }

  lemma {:induction false} ValueOfJoin(a: string, b: string)
    requires AllDigits(a) && AllDigits(b)
    ensures AllDigits(a + b)
    ensures ValueOf(a + b) == ValueOf(a) * Pow10(|b|) + ValueOf(b)
  {
    if b == [] {
      assert a + b == a;
    } else {
      var b', v := b[..|b| - 1], ValueOf(a);
      assert (a + b)[..|a + b| - 1] == a + b';
      ValueOfJoin(a, b');
      Scale(v, Pow10(|b'|));
    }
  }

  // ----- strconv -----

  /** Go's strconv.ParseUint in base 10: digits only, at least one, at most `max`. */
  function ParseUint(s: string, max: nat): Option<nat> {
    if s == [] || !AllDigits(s) || ValueOf(s) > max then None else Some(ValueOf(s))
  }

  const MIN_INT32: int := -0x8000_0000
  const MAX_INT32: int := 0x7fff_ffff

  /** Go's strconv.ParseInt in base 10 for 32 bits: an optional sign and digits, within range. */
  function ParseInt32(s: string): Option<int> {
    if s != [] && s[0] == '-' then
      match ParseUint(s[1..], -MIN_INT32)
      case None => None
      case Some(v) => Some(0 - v)
    else
      match ParseUint(if s != [] && s[0] == '+' then s[1..] else s, MAX_INT32)
      case None => None
      case Some(v) => Some(v)
  }

  lemma ParseUintPrinted(n: nat, max: nat)
    requires n <= max
    ensures ParseUint(PrintNat(n), max) == Some(n) && IsDigit(PrintNat(n)[0])
  {
    PrintNatReads(n);
  }

  lemma ParseNegative(n: nat)
    requires n <= -MIN_INT32
    ensures ParseInt32("-" + PrintNat(n)) == Some(0 - n)
  {
    ParseUintPrinted(n, -MIN_INT32);
    assert ("-" + PrintNat(n))[1..] == PrintNat(n);
  }

  lemma ParsePrinted(n: int)
    requires MIN_INT32 <= n <= MAX_INT32
    ensures ParseInt32(PrintInt(n)) == Some(n)
  {
    if n < 0 {
      ParseNegative(-n);
    } else {
      ParseUintPrinted(n, MAX_INT32);
    }
  }

  /**
   A row of digits, leading zeros or not, is read as its value with or without a plus sign, and as its negation
   with a minus sign, exactly if that fits 32 bits.
   */
  lemma NumeralsRead(digits: string)
    requires digits != "" && AllDigits(digits)
    ensures ParseInt32(digits) == ParseInt32("+" + digits) ==
            if ValueOf(digits) <= 0x7fff_ffff then Some(ValueOf(digits)) else None
    ensures ParseInt32("-" + digits) == if ValueOf(digits) <= 0x8000_0000 then Some(0 - ValueOf(digits)) else None
  {
    assert ("+" + digits)[1..] == digits && ("-" + digits)[1..] == digits;
    assert IsDigit(digits[0]);
  }

  /** Nothing else is a number: only a sign, or anything but digits after it. */
  lemma OnlyNumeralsRead(s: string)
    requires ParseInt32(s).Some?
    ensures s != "" && var digits := if s[0] == '+' || s[0] == '-' then s[1..] else s;
            digits != "" && AllDigits(digits)
  {
  }
}
