/** Printing of big integers with a fixed or with the natural number of decimals, and reading it back. */
module BigIntegers {
  import opened Basics
  import opened Decimals
  import opened Strings

  // ----- the printer -----

  function Abs(x: int): nat {
    if x < 0 then -x else x
  }

  function Zeros(n: nat): (s: string)
    ensures |s| == n && AllDigits(s)
  {
    seq(n, _ => '0')
  }

  /** Go's %0<width>d. */
  function ZeroPadded(n: nat, width: nat): (s: string)
    ensures AllDigits(s)
  {
    var s := PrintNat(n);
    if |s| >= width then s else Zeros(width - |s|) + s
  }

  function TrimZeros(s: string): string {
    if s != [] && s[|s| - 1] == '0' then TrimZeros(s[..|s| - 1]) else s
  }

  function FormatQuotient(integer: int, remainder: nat, precision: nat): string {
    if remainder != 0 then PrintInt(integer) + "." + TrimZeros(ZeroPadded(remainder, precision))
    else PrintInt(integer)
  }

  /** The quotient by 10^precision, rounded toward zero, and the decimals of the remainder. */
  function FormatFixed(x: int, precision: nat): string {
    var quotient := Abs(x) / Pow10(precision);
    FormatQuotient(if x < 0 then -quotient else quotient, Abs(x) % Pow10(precision), precision)
  }

  function FormatBigInt(x: int, precision: int): string {
    if precision < 0 then
      var p := |PrintNat(Abs(x))| - 1;
      FormatFixed(x, p) + "e" + PrintNat(p)
    else FormatFixed(x, precision)
  }

  // ----- a reader -----

  /** A decimal number: digits / 10^scale, negated if `negative`. */
  datatype Decimal = Decimal(negative: bool, digits: nat, scale: nat)

  function Signed(d: Decimal): int {
    if d.negative then 0 - d.digits else d.digits
  }

  /** The number is exactly x / 10^p. */
  predicate Denotes(d: Decimal, x: int, p: nat) {
    Signed(d) * Pow10(p) == x * Pow10(d.scale)
  }

  function ReadUnsigned(s: string, negative: bool): Option<Decimal> {
    var parts := Split(s, '.');
    if |parts| > 2 || !AllDigits(parts[0]) || parts[0] == "" then None
    else if |parts| == 1 then Some(Decimal(negative, ValueOf(parts[0]), 0))
    else if !AllDigits(parts[1]) || parts[1] == "" then None
    else Some(Decimal(negative, ValueOf(parts[0] + parts[1]), |parts[1]|))
  }

  function ReadDecimal(s: string): Option<Decimal> {
    if s != [] && s[0] == '-' then ReadUnsigned(s[1..], true) else ReadUnsigned(s, false)
  }

  /** A decimal number and, after an `e`, a power of ten. */
  function ReadScientific(s: string): Option<(Decimal, nat)> {
    var parts := Split(s, 'e');
    if |parts| != 2 || parts[1] == "" || !AllDigits(parts[1]) then None
    else
      var d :- ReadDecimal(parts[0]);
      Some((d, ValueOf(parts[1])))
  }

  // ----- digits -----

  lemma {:induction false} Pow10Add(a: nat, b: nat)
    ensures Pow10(a + b) == Pow10(a) * Pow10(b)
  {
    if a > 0 {
      Pow10Add(a - 1, b);
      Regroup(Pow10(a - 1), Pow10(b));
    }
  }

  lemma Regroup(a: nat, b: nat)
    ensures 10 * (a * b) == (10 * a) * b
  {
  }

  lemma {:induction false} ZerosValue(n: nat)
    ensures ValueOf(Zeros(n)) == 0
  {
    if n > 0 {
      assert Zeros(n)[..n - 1] == Zeros(n - 1);
      ZerosValue(n - 1);
    }
  }

  lemma {:induction false} Pow10Monotone(a: nat, b: nat)
    requires a <= b
    ensures Pow10(a) <= Pow10(b)
  {
    if a < b {
      Pow10Monotone(a, b - 1);
    }
  }

  lemma FitsWidth(n: nat, width: nat)
    requires 0 < n < Pow10(width)
    ensures |PrintNat(n)| <= width
  {
    PrintNatLength(n);
    if |PrintNat(n)| > width {
      Pow10Monotone(width, |PrintNat(n)| - 1);
    }
  }

  lemma PaddedValue(n: nat, width: nat)
    requires 0 < n < Pow10(width)
    ensures |ZeroPadded(n, width)| == width && ValueOf(ZeroPadded(n, width)) == n
  {
    var s := PrintNat(n);
    PrintNatReads(n);
    FitsWidth(n, width);
    if |s| < width {
      var zeros := Zeros(width - |s|);
      ZerosValue(width - |s|);
      ValueOfJoin(zeros, s);
      assert 0 * Pow10(|s|) == 0;
    }
  }

  lemma {:induction false} TrimmedValue(s: string)
    requires AllDigits(s)
    ensures |TrimZeros(s)| <= |s| && AllDigits(TrimZeros(s))
    ensures ValueOf(s) == ValueOf(TrimZeros(s)) * Pow10(|s| - |TrimZeros(s)|)
    ensures TrimZeros(s) != [] ==> TrimZeros(s)[|TrimZeros(s)| - 1] != '0'
  {
    if s != [] && s[|s| - 1] == '0' {
      var s' := s[..|s| - 1];
      TrimmedValue(s');
      Scale(ValueOf(TrimZeros(s)), Pow10(|s'| - |TrimZeros(s)|));
    }
  }

  lemma TrimNotEmpty(s: string)
    requires AllDigits(s) && ValueOf(s) > 0
    ensures TrimZeros(s) != []
  {
    TrimmedValue(s);
  }

  // ----- exactness -----

  /** The digits q.t, with t the decimals of r, are those of q * 10^p + r. */
  lemma FractionExact(q: nat, r: nat, p: nat)
    requires 0 < r < Pow10(p)
    ensures var t := TrimZeros(ZeroPadded(r, p));
            && 0 < |t| <= p && AllDigits(t) && t[|t| - 1] != '0'
            && ValueOf(PrintNat(q) + t) * Pow10(p) == (q * Pow10(p) + r) * Pow10(|t|)
  {
    var padded := ZeroPadded(r, p);
    var t := TrimZeros(padded);
    PaddedValue(r, p);
    TrimmedValue(padded);
    var k, v := |t|, ValueOf(t);
    assert r == v * Pow10(p - k);
    TrimNotEmpty(padded);
    ValueOfJoin(PrintNat(q), t);
    PrintNatReads(q);
    Pow10Add(p - k, k);
    CrossMultiply(q, v, Pow10(p - k), Pow10(k), Pow10(p));
  }

  lemma CrossMultiply(q: nat, v: nat, a: nat, b: nat, c: nat)
    requires a * b == c
    ensures (q * b + v) * c == (q * c + v * a) * b
  {
    assert (q * b + v) * c == q * b * c + v * c;
    assert (q * c + v * a) * b == q * c * b + v * a * b;
    assert v * a * b == v * (a * b);
    assert q * b * c == q * c * b;
  }

  lemma ReadJoined(i: string, t: string, negative: bool)
    requires AllDigits(i) && AllDigits(t) && i != "" && t != ""
    ensures ReadUnsigned(i + "." + t, negative) == Some(Decimal(negative, ValueOf(i + t), |t|))
    ensures ReadUnsigned(i, negative) == Some(Decimal(negative, ValueOf(i), 0))
  {
    SplitPart(i, '.');
    SplitPart(t, '.');
    SplitFirst(i, t, '.');
    assert i + "." + t == i + ['.'] + t;
  }

  lemma LastDigit(s: string)
    requires AllDigits(s) && s != ""
    ensures ValueOf(s) % 10 == DigitValue(s[|s| - 1])
  {
  }

  /** What the printer writes for |x| = q * 10^p + r, without the sign. */
  function Unsigned(q: nat, r: nat, p: nat): string {
    if r != 0 then PrintNat(q) + "." + TrimZeros(ZeroPadded(r, p)) else PrintNat(q)
  }

  /** Read back, it is exactly that number, with no more than p decimals and none of them a trailing zero. */
  lemma UnsignedExact(q: nat, r: nat, p: nat, negative: bool) returns (d: Decimal)
    requires r < Pow10(p)
    ensures ReadUnsigned(Unsigned(q, r, p), negative) == Some(d)
    ensures d.negative == negative && d.scale <= p && (r == 0 ==> d.scale == 0)
    ensures d.digits * Pow10(p) == (q * Pow10(p) + r) * Pow10(d.scale)
    ensures d.scale > 0 ==> d.digits % 10 != 0
  {
    if r != 0 {
      FractionExact(q, r, p);
      var t := TrimZeros(ZeroPadded(r, p));
      ReadJoined(PrintNat(q), t, negative);
      d := Decimal(negative, ValueOf(PrintNat(q) + t), |t|);
      LastDigit(PrintNat(q) + t);
    } else {
      PrintNatReads(q);
      ReadJoined(PrintNat(q), "0", negative);
      d := Decimal(negative, q, 0);
    }
  }

  lemma FormatParts(integer: int, r: nat, p: nat)
    ensures FormatQuotient(integer, r, p) == (if integer < 0 then "-" else "") + Unsigned(Abs(integer), r, p)
  {
    var q := Abs(integer);
    assert "" + Unsigned(q, r, p) == Unsigned(q, r, p);
    if integer < 0 && r != 0 {
      var t := TrimZeros(ZeroPadded(r, p));
      assert "-" + PrintNat(q) + "." + t == "-" + (PrintNat(q) + "." + t);
    }
  }

  /** The integer part as the printer has it, and the remainder. */
  lemma Quotient(x: int, p: nat) returns (integer: int, r: nat)
    ensures FormatFixed(x, p) == FormatQuotient(integer, r, p)
    ensures Abs(x) == Abs(integer) * Pow10(p) + r && r < Pow10(p)
    ensures Abs(integer) == Abs(x) / Pow10(p) && (x < 0 ==> integer <= 0) && (x >= 0 ==> integer >= 0)
  {
    DivMod(Abs(x), Pow10(p));
    integer, r := if x < 0 then -(Abs(x) / Pow10(p)) else Abs(x) / Pow10(p), Abs(x) % Pow10(p);
  }

  lemma DivMod(n: nat, d: nat)
    requires d > 0
    ensures n == (n / d) * d + n % d && 0 <= n % d < d && n / d >= 0
  {
  }

  lemma UnsignedStart(q: nat, r: nat, p: nat)
    ensures Unsigned(q, r, p) != "" && IsDigit(Unsigned(q, r, p)[0])
  {
    assert IsDigit(PrintNat(q)[0]);
  }

  lemma QuotientPositive(q: nat, d: nat, r: nat)
    requires r < d
    ensures q > 0 <==> q * d + r >= d
  {
    if q > 0 {
      assert q * d == (q - 1) * d + d;
    }
  }

  /**
   Exact fixed-precision printing. For every integer and precision the text is a decimal number of at most
   p decimals, without trailing zeros, and it is exactly x / 10^p unless x is negative and smaller than
   10^p in magnitude: then the sign is missing.
   */
  lemma FixedExact(x: int, p: nat) returns (d: Decimal)
    ensures ReadDecimal(FormatFixed(x, p)) == ReadDecimal(FormatBigInt(x, p)) == Some(d)
    ensures d.scale <= p && (d.scale > 0 ==> d.digits % 10 != 0)
    ensures Denotes(d, x, p) <==> x >= 0 || -x >= Pow10(p)
    ensures d.digits * Pow10(p) == Abs(x) * Pow10(d.scale)
  {
    var integer, r := Quotient(x, p);
    FormatParts(integer, r, p);
    QuotientPositive(Abs(integer), Pow10(p), r);
    d := UnsignedExact(Abs(integer), r, p, integer < 0);
    UnsignedStart(Abs(integer), r, p);
    assert integer < 0 ==> FormatFixed(x, p)[1..] == Unsigned(Abs(integer), r, p);
    SignMatters(d, x, p);
  }

  lemma SignMatters(d: Decimal, x: int, p: nat)
    requires d.digits * Pow10(p) == Abs(x) * Pow10(d.scale) && (d.negative ==> x < 0)
    ensures Denotes(d, x, p) <==> (x >= 0 || d.negative)
  {
    var a, b := d.digits * Pow10(p), Pow10(d.scale);
    if x < 0 {
      assert x * b == -(Abs(x) * b);
      assert (0 - d.digits) * Pow10(p) == -a;
      assert Abs(x) * b > 0;
    }
  }

  lemma {:induction false} NoExponent(s: string, t: string)
    requires 'e' !in s && 'e' !in t
    ensures Split(s + "e" + t, 'e') == [s, t]
  {
    SplitPart(t, 'e');
    SplitFirst(s, t, 'e');
    assert s + "e" + t == s + ['e'] + t;
  }

  lemma DigitsText(s: string)
    requires AllDigits(s)
    ensures 'e' !in s
  {
  }

  lemma FixedText(x: int, p: nat)
    ensures 'e' !in FormatFixed(x, p)
  {
    var integer, r := Quotient(x, p);
    FormatParts(integer, r, p);
    DigitsText(PrintNat(Abs(integer)));
    if r != 0 {
      TrimmedValue(ZeroPadded(r, p));
      DigitsText(TrimZeros(ZeroPadded(r, p)));
    }
  }

  /** The exponent is one less than the number of digits, so no sign gets lost. */
  lemma ExponentFits(x: int)
    ensures var e := |PrintNat(Abs(x))| - 1;
            Abs(x) < 10 * Pow10(e) && (x != 0 ==> Abs(x) >= Pow10(e))
  {
    if x != 0 {
      PrintNatLength(Abs(x));
    }
  }

  lemma ReadParts(s: string, e: nat, d: Decimal)
    requires 'e' !in s && ReadDecimal(s) == Some(d)
    ensures ReadScientific(s + "e" + PrintNat(e)) == Some((d, e))
  {
    DigitsText(PrintNat(e));
    PrintNatReads(e);
    NoExponent(s, PrintNat(e));
  }

  /**
   Exact scientific printing. For every integer the text reads back as a mantissa and a power of ten whose
   product is that integer.
   */
  lemma ScientificExact(x: int) returns (d: Decimal, e: nat)
    ensures ReadScientific(FormatBigInt(x, -1)) == Some((d, e))
    ensures Signed(d) * Pow10(e) == x * Pow10(d.scale)
  {
    e := |PrintNat(Abs(x))| - 1;
    d := FixedExact(x, e);
    ExponentFits(x);
    FixedText(x, e);
    ReadParts(FormatFixed(x, e), e, d);
  }

  lemma UnsignedDigit(q: nat, r: nat, p: nat) returns (tail: string)
    requires q < 10
    ensures Unsigned(q, r, p) == [DigitChar(q)] + tail && (tail == "" || tail[0] == '.')
  {
    tail := if r != 0 then "." + TrimZeros(ZeroPadded(r, p)) else "";
  }

  lemma Glue(sign: string, digit: char, tail: string, exponent: string)
    ensures sign + ([digit] + tail) + exponent == sign + [digit] + (tail + exponent)
  {
  }

  lemma SingleDigit(x: int, e: nat) returns (integer: int, r: nat)
    requires e == |PrintNat(Abs(x))| - 1
    ensures FormatFixed(x, e) == FormatQuotient(integer, r, e)
    ensures Abs(integer) < 10 && (integer == 0 <==> x == 0) && (integer < 0 <==> x < 0)
  {
    integer, r := Quotient(x, e);
    ExponentFits(x);
    OneDigit(Abs(integer), Pow10(e), r, Abs(x));
  }

  /** The mantissa starts with a single digit, which is zero only for zero. */
  lemma LeadingDigit(x: int) returns (digit: char, rest: string)
    ensures FormatBigInt(x, -1) == (if x < 0 then "-" else "") + [digit] + rest
    ensures IsDigit(digit) && (digit == '0' <==> x == 0)
    ensures rest != "" && (rest[0] == '.' || rest[0] == 'e')
  {
    var e := |PrintNat(Abs(x))| - 1;
    var integer, r := SingleDigit(x, e);
    FormatParts(integer, r, e);
    var tail := UnsignedDigit(Abs(integer), r, e);
    var exponent := "e" + PrintNat(e);
    digit, rest := DigitChar(Abs(integer)), tail + exponent;
    var sign := if x < 0 then "-" else "";
    Glue(sign, digit, tail, exponent);
    assert FormatBigInt(x, -1) == FormatFixed(x, e) + exponent;
  }

  lemma OneDigit(q: nat, d: nat, r: nat, n: nat)
    requires n == q * d + r && r < d && n < 10 * d && (n != 0 ==> n >= d)
    ensures q < 10 && (q == 0 <==> n == 0)
  {
    Multiples(q, 10, d);
    Multiples(q, 1, d);
  }

  lemma Multiples(q: nat, k: nat, d: nat)
    ensures q >= k ==> q * d >= k * d
  {
    if q >= k {
      assert q * d == k * d + (q - k) * d;
    }
  }
}
