/**
 Filling in a format string that is written from parts: characters, percent signs that start nothing, specifiers,
 and broken or cut off specifiers. This says what the console prints for it without scanning anything.
 */
module Formats {
  import opened Basics
  import opened Consoles
  import opened Decimals

  datatype Part =
    | Char(c: char)
    | Percent
    | Arg(spec: Spec, name: string)
    | Broken(name: string)
    | CutOff(digits: string)

  function Text(p: Part): string {
    match p
    case Char(c) => [c]
    case Percent => "%"
    case Arg(_, name) => name
    case Broken(name) => name
    case CutOff(digits) => "%" + digits
  }

  /** A percent sign, digits, and a character that makes no specifier of them. */
  predicate IsBroken(digits: string, c: char) {
    && AllDigits(digits) && !IsDigit(c)
    && (digits == "" ==> c != '%' && c != 's' && c != 'd' && c != 'i' && c != 'o' && c != 'e' && c != 'x')
    && (digits != "" && c == 'e' ==> ValueOf(digits) > 0xffff)
  }

  predicate IsPart(p: Part) {
    match p
    case Char(c) => c != '%'
    case Percent => true
    case Arg(spec, name) => Names(name, spec)
    case Broken(name) => |name| > 1 && name[0] == '%' && IsBroken(name[1..|name| - 1], name[|name| - 1])
    case CutOff(digits) => digits != "" && AllDigits(digits)
  }

  /** A lone percent sign stands before another one or at the end, and only the end cuts a specifier off. */
  ghost predicate WellFormed(parts: seq<Part>) {
    parts != [] ==>
      && IsPart(parts[0])
      && (parts[0].Percent? && |parts| > 1 ==> !parts[1].Char?)
      && (parts[0].CutOff? ==> |parts| == 1)
      && WellFormed(parts[1..])
  }

  function Format(parts: seq<Part>): string {
    if parts == [] then "" else Text(parts[0]) + Format(parts[1..])
  }

  /** Values that are left over are appended as strings, with spaces in between. */
  function Appended<V>(show: (V, Spec) -> string, values: seq<V>, out: string): string
    decreases |values|
  {
    if values == [] then out
    else Appended(show, values[1..], (if out == "" then "" else out + " ") + show(values[0], StringFormat))
  }

  /** Each specifier takes the next value, or stands for itself once there is none; everything else is copied. */
  function Filled<V>(show: (V, Spec) -> string, parts: seq<Part>, values: seq<V>, out: string): string
    decreases |parts|
  {
    if parts == [] then Appended(show, values, out)
    else if parts[0].Arg? && values != [] then
      Filled(show, parts[1..], values[1..], out + show(values[0], parts[0].spec))
    else Filled(show, parts[1..], values, out + Text(parts[0]))
  }

  // ----- the scanner finds the parts -----

  lemma {:induction false} BrokenScanned(digits: string, c: char, rest: string, seen: string)
    requires AllDigits(seen) && AllDigits(digits) && !IsDigit(c)
    requires c == 'e' ==> ParseUint(seen + digits, MAX_UINT16).None?
    ensures ScanPrecision(digits + [c] + rest, seen) == (None, seen + digits + [c])
    decreases |digits|
  {
    var all := digits + [c] + rest;
    if digits == [] {
      assert seen + digits == seen;
    } else {
      assert all[1..] == digits[1..] + [c] + rest;
      assert seen + [digits[0]] + digits[1..] == seen + digits;
      BrokenScanned(digits[1..], c, rest, seen + [digits[0]]);
    }
  }

  lemma {:induction false} CutScanned(digits: string, seen: string)
    requires AllDigits(seen) && AllDigits(digits)
    ensures ScanPrecision(digits, seen) == (None, seen + digits)
    decreases |digits|
  {
    if digits == [] {
      assert seen + digits == seen;
    } else {
      assert seen + [digits[0]] + digits[1..] == seen + digits;
      CutScanned(digits[1..], seen + [digits[0]]);
    }
  }

  lemma BrokenPiece(digits: string, c: char, rest: string)
    requires IsBroken(digits, c)
    ensures FirstPiece("%" + digits + [c] + rest) == Plain("%" + digits + [c])
  {
    var text := "%" + digits + [c] + rest;
    assert text[1..] == digits + [c] + rest;
    assert "" + digits == digits && "" + digits + [c] == digits + [c];
    BrokenScanned(digits, c, rest, "");
    assert "%" + (digits + [c]) == "%" + digits + [c];
  }

  lemma CutPiece(digits: string)
    requires digits != "" && AllDigits(digits)
    ensures FirstPiece("%" + digits) == Plain("%" + digits)
  {
    assert ("%" + digits)[1..] == digits;
    CutScanned(digits, "");
    assert "" + digits == digits;
  }

  lemma BrokenIs(name: string, rest: string)
    requires IsPart(Broken(name))
    ensures FirstPiece(name + rest) == Plain(name)
  {
    var digits, c := name[1..|name| - 1], name[|name| - 1];
    assert name == "%" + digits + [c];
    BrokenPiece(digits, c, rest);
  }

  lemma StartsWithPercent(parts: seq<Part>)
    requires WellFormed(parts) && parts != [] && !parts[0].Char?
    ensures Format(parts) != "" && Format(parts)[0] == '%'
  {
  }

  lemma FirstPart(parts: seq<Part>)
    requires WellFormed(parts) && parts != []
    ensures Format(parts) != ""
    ensures FirstPiece(Format(parts)) ==
            if parts[0].Arg? then Verb(parts[0].spec, parts[0].name) else Plain(Text(parts[0]))
  {
    var p, rest := parts[0], Format(parts[1..]);
    match p
    case Char(_) =>
    case Percent => if |parts| > 1 { StartsWithPercent(parts[1..]); }
    case Arg(spec, name) => NamedVerb(name, spec, rest);
    case Broken(name) => BrokenIs(name, rest);
    case CutOff(digits) =>
      assert Format(parts) == "%" + digits;
      CutPiece(digits);
  }

  lemma {:induction false} RestAppended<V>(show: (V, Spec) -> string, values: seq<V>, out: string, used: nat)
    requires used <= |values|
    ensures Remaining(show, values, out, [], used) == Appended(show, values[used..], out)
    decreases |values| - used
  {
    if used < |values| {
      TrailingStep(show, values, out, used);
      var spaced := if |out| > 0 then out + " " else out;
      RestAppended(show, values, spaced + show(values[used], StringFormat), used + 1);
      assert values[used..][1..] == values[used + 1..];
    }
  }

  lemma {:induction false} PartsFilled<V>(show: (V, Spec) -> string, parts: seq<Part>, values: seq<V>, out: string,
                                          used: nat)
    requires WellFormed(parts) && used <= |values|
    ensures Remaining(show, values, out, Format(parts), used) == Filled(show, parts, values[used..], out)
    decreases |parts|
  {
    if parts == [] {
      RestAppended(show, values, out, used);
    } else {
      FirstPart(parts);
      var p, text := parts[0], Text(parts[0]);
      assert Format(parts)[|text|..] == Format(parts[1..]);
      if p.Arg? && used < |values| {
        VerbStep(show, values, out, Format(parts), used, p.spec, p.name);
        assert values[used..][1..] == values[used + 1..];
        PartsFilled(show, parts[1..], values, out + show(values[used], p.spec), used + 1);
      } else {
        PlainStep(show, values, out, Format(parts), used, text);
        PartsFilled(show, parts[1..], values, out + text, used);
      }
    }
  }

  /**
   Filling in. A format string written from any well-formed sequence of parts is filled in part by part, and
   a byte order mark before it makes no difference.
   */
  lemma FormatFilled<V>(show: (V, Spec) -> string, parts: seq<Part>, values: seq<V>)
    requires WellFormed(parts)
    ensures Formatted(show, ['\U{FEFF}'] + Format(parts), values) == Filled(show, parts, values, "")
    ensures Format(parts) == "" || Format(parts)[0] != '\U{FEFF}' ==>
              Formatted(show, Format(parts), values) == Filled(show, parts, values, "")
  {
    assert (['\U{FEFF}'] + Format(parts))[1..] == Format(parts);
    assert values[0..] == values;
    PartsFilled(show, parts, values, "", 0);
  }
}
