/**
 The console formatter: a printf-style scanner over the characters of a format string, with a queue of
 values. How one value is printed is a parameter; what is proved here is that no text and no value is
 lost, repeated or moved.
 */
module Consoles {
  import opened Basics
  import opened Decimals

  datatype Spec =
    | StringFormat
    | NumberFormat
    | IntegerFormat
    | ObjectFormat
    | ExponentialFormat(precision: int)
    | HexadecimalFormat

  const BYTE_ORDER_MARK: char := '\U{FEFF}'
  const MAX_UINT16: nat := 0xffff

  // ----- the grammar of format strings -----

  /** What a format string starts with: plain text, or a specifier together with its text. */
  datatype Piece = Plain(text: string) | Verb(spec: Spec, text: string)

  /** A row of digits closed by an `e`, after `digits`; gives the spec, if any, and all that was consumed. */
  function ScanPrecision(rest: string, digits: string): (r: (Option<Spec>, string))
    requires AllDigits(digits)
    ensures |digits| <= |r.1| <= |digits| + |rest|
    ensures r.1 <= digits + rest
    ensures rest != [] ==> |r.1| > |digits|
    decreases |rest|
  {
    if rest == [] then (None, digits)
    else
      assert digits + [rest[0]] + rest[1..] == digits + rest;
      if rest[0] == 'e' then
        (match ParseUint(digits, MAX_UINT16) case None => None case Some(p) => Some(ExponentialFormat(p)), digits + "e")
      else if !IsDigit(rest[0]) then (None, digits + [rest[0]])
      else ScanPrecision(rest[1..], digits + [rest[0]])
  }

  /** The specifier after a percent sign, if any, and the characters consumed looking for it. */
  function ScanSpec(rest: string): (r: (Option<Spec>, string))
    requires rest != []
    ensures 0 < |r.1| && r.1 <= rest
  {
    match rest[0]
    case 's' => (Some(StringFormat), "s")
    case 'd' => (Some(NumberFormat), "d")
    case 'i' => (Some(IntegerFormat), "i")
    case 'o' => (Some(ObjectFormat), "o")
    case 'e' => (Some(ExponentialFormat(-1)), "e")
    case 'x' => (Some(HexadecimalFormat), "x")
    case _ =>
      assert "" + rest == rest;
      ScanPrecision(rest, "")
  }

  function FirstPiece(text: string): (p: Piece)
    requires text != []
    ensures 0 < |p.text| && p.text <= text
  {
    if text[0] != '%' then Plain([text[0]])
    else if |text| == 1 || text[1] == '%' then Plain("%")
    else
      var (spec, consumed) := ScanSpec(text[1..]);
      assert "%" + consumed <= ["%"[0]] + text[1..] == text;
      if spec.Some? then Verb(spec.value, "%" + consumed) else Plain("%" + consumed)
  }

  /** `text` is a way to write `spec`: a percent sign and a letter, or a precision of at most 16 bits and `e`. */
  predicate Names(text: string, spec: Spec) {
    match spec
    case StringFormat => text == "%s"
    case NumberFormat => text == "%d"
    case IntegerFormat => text == "%i"
    case ObjectFormat => text == "%o"
    case HexadecimalFormat => text == "%x"
    case ExponentialFormat(p) =>
      if p == -1 then text == "%e"
      else
        && p >= 0 && |text| > 2 && text[0] == '%' && text[|text| - 1] == 'e'
        && ParseUint(text[1..|text| - 1], 0xffff) == Some(p)
  }

  lemma {:induction false} PrecisionNames(rest: string, digits: string)
    requires AllDigits(digits) && ScanPrecision(rest, digits).0.Some?
    ensures var r := ScanPrecision(rest, digits);
            |r.1| > 0 && r.1[|r.1| - 1] == 'e' && r.0.value.ExponentialFormat? && r.0.value.precision >= 0 &&
            ParseUint(r.1[..|r.1| - 1], MAX_UINT16) == Some(r.0.value.precision)
    decreases |rest|
  {
    var r := ScanPrecision(rest, digits);
    if rest[0] == 'e' {
      assert r.1[..|r.1| - 1] == digits;
    } else {
      PrecisionNames(rest[1..], digits + [rest[0]]);
    }
  }

  lemma {:induction false} PrecisionScanned(digits: string, rest: string, seen: string)
    requires AllDigits(seen) && AllDigits(digits) && ParseUint(seen + digits, MAX_UINT16).Some?
    ensures ScanPrecision(digits + "e" + rest, seen) ==
            (Some(ExponentialFormat(ParseUint(seen + digits, MAX_UINT16).value)), seen + digits + "e")
    decreases |digits|
  {
    var all := digits + "e" + rest;
    if digits == [] {
      assert seen + digits == seen;
    } else {
      assert all[1..] == digits[1..] + "e" + rest;
      assert seen + [digits[0]] + digits[1..] == seen + digits;
      PrecisionScanned(digits[1..], rest, seen + [digits[0]]);
    }
  }

  lemma PrecisionNamed(consumed: string, spec: Spec)
    requires spec.ExponentialFormat? && spec.precision >= 0 && |consumed| > 0 && consumed[|consumed| - 1] == 'e'
    requires ParseUint(consumed[..|consumed| - 1], MAX_UINT16) == Some(spec.precision)
    ensures Names("%" + consumed, spec)
  {
    assert ("%" + consumed)[1..|consumed|] == consumed[..|consumed| - 1];
  }

  predicate IsLetter(c: char) {
    c == 's' || c == 'd' || c == 'i' || c == 'o' || c == 'e' || c == 'x'
  }

  lemma LetterNames(rest: string)
    requires rest != [] && IsLetter(rest[0])
    ensures ScanSpec(rest).0.Some? && Names("%" + ScanSpec(rest).1, ScanSpec(rest).0.value)
  {
  }

  lemma SpecNames(rest: string)
    requires rest != [] && ScanSpec(rest).0.Some?
    ensures Names("%" + ScanSpec(rest).1, ScanSpec(rest).0.value)
  {
    if IsLetter(rest[0]) {
      LetterNames(rest);
    } else {
      PrecisionNames(rest, "");
      PrecisionNamed(ScanPrecision(rest, "").1, ScanPrecision(rest, "").0.value);
    }
  }

  /** What is recognised as a specifier names it. */
  lemma VerbNames(text: string)
    requires text != [] && FirstPiece(text).Verb?
    ensures Names(FirstPiece(text).text, FirstPiece(text).spec)
  {
    SpecNames(text[1..]);
  }

  lemma NamedPrecision(digits: string, p: nat, rest: string)
    requires ParseUint(digits, MAX_UINT16) == Some(p)
    ensures FirstPiece("%" + digits + "e" + rest) == Verb(ExponentialFormat(p), "%" + digits + "e")
  {
    var all := "%" + digits + "e" + rest;
    assert all[1..] == digits + "e" + rest;
    assert "" + digits == digits;
    PrecisionScanned(digits, rest, "");
    assert IsDigit(digits[0]);
    assert "%" + (digits + "e") == "%" + digits + "e";
  }

  /** Whatever names a specifier is recognised, with nothing of what follows. */
  lemma NamedVerb(text: string, spec: Spec, rest: string)
    requires Names(text, spec)
    ensures FirstPiece(text + rest) == Verb(spec, text)
  {
    if spec.ExponentialFormat? && spec.precision >= 0 {
      var digits := text[1..|text| - 1];
      assert text == "%" + digits + "e";
      NamedPrecision(digits, spec.precision, rest);
    } else {
      assert (text + rest)[1..] == text[1..] + rest;
    }
  }

  // ----- what is written -----

  /**
   One thing written: text of the format string; the value numbered `index`, in place of the specifier
   `text` or, with no text, after the end; or the space that goes before a value after the end.
   */
  datatype Chunk = Literal(text: string) | Value(index: nat, spec: Spec, text: string) | Space

  /** The values from `used` on, after the end. */
  function Trailing(used: nat, n: nat): seq<Chunk>
    decreases n - used
  {
    if used >= n then [] else [Space, Value(used, StringFormat, "")] + Trailing(used + 1, n)
  }

  /** What is written for `text` and the values from `used` to `n`; it depends on neither their kind nor print. */
  function Chunks(text: string, used: nat, n: nat): seq<Chunk>
    decreases |text|
  {
    if text == [] then Trailing(used, n)
    else
      var p := FirstPiece(text);
      if p.Verb? && used < n then [Value(used, p.spec, p.text)] + Chunks(text[|p.text|..], used + 1, n)
      else [Literal(p.text)] + Chunks(text[|p.text|..], used, n)
  }

  function Write<V>(show: (V, Spec) -> string, values: seq<V>, out: string, c: Chunk): string {
    match c
    case Literal(text) => out + text
    case Value(index, spec, _) => if index < |values| then out + show(values[index], spec) else out
    case Space => if |out| > 0 then out + " " else out
  }

  function WriteAll<V>(show: (V, Spec) -> string, values: seq<V>, out: string, cs: seq<Chunk>): string
    decreases |cs|
  {
    if cs == [] then out else WriteAll(show, values, Write(show, values, out, cs[0]), cs[1..])
  }

  /** The scanner skips a byte order mark at the very start. */
  function SkipMark(fmtMsg: string): string {
    if fmtMsg != [] && fmtMsg[0] == BYTE_ORDER_MARK then fmtMsg[1..] else fmtMsg
  }

  function Formatted<V>(show: (V, Spec) -> string, fmtMsg: string, values: seq<V>): string {
    WriteAll(show, values, "", Chunks(SkipMark(fmtMsg), 0, |values|))
  }

  // ----- the scanner -----

  method FormatSpecFromChars(fmt: string, start: nat) returns (spec: Option<Spec>, consumed: string, pos: nat)
    requires start < |fmt|
    ensures (spec, consumed) == ScanSpec(fmt[start..]) && pos == start + |consumed|
  {
    var fmtChar := fmt[start];
    pos := start + 1;
    match fmtChar
    case 's' => return Some(StringFormat), "s", pos;
    case 'd' => return Some(NumberFormat), "d", pos;
    case 'i' => return Some(IntegerFormat), "i", pos;
    case 'o' => return Some(ObjectFormat), "o", pos;
    case 'e' => return Some(ExponentialFormat(-1)), "e", pos;
    case 'x' => return Some(HexadecimalFormat), "x", pos;
    case _ =>
      pos := start;
      consumed := "";
      while pos < |fmt|
        invariant start <= pos <= |fmt| && pos == start + |consumed| && AllDigits(consumed)
        invariant ScanPrecision(fmt[pos..], consumed) == ScanPrecision(fmt[start..], "")
        decreases |fmt| - pos
      {
        fmtChar := fmt[pos];
        assert fmt[pos..][1..] == fmt[pos + 1..];
        pos := pos + 1;
        if fmtChar == 'e' {
          var precision := ParseUint(consumed, MAX_UINT16);
          consumed := consumed + "e";
          if precision.None? {
            return None, consumed, pos;
          }
          return Some(ExponentialFormat(precision.value)), consumed, pos;
        }
        consumed := consumed + [fmtChar];
        if !IsDigit(fmtChar) {
          return None, consumed, pos;
        }
      }
      return None, consumed, pos;
  }

  /** All that is left to write when `text` is left to scan. */
  function Remaining<V>(show: (V, Spec) -> string, values: seq<V>, out: string, text: string, used: nat): string {
    WriteAll(show, values, out, Chunks(text, used, |values|))
  }

  lemma PlainStep<V>(show: (V, Spec) -> string, values: seq<V>, out: string, text: string, used: nat, plain: string)
    requires text != [] && FirstPiece(text).text == plain && !(FirstPiece(text).Verb? && used < |values|)
    ensures Remaining(show, values, out, text, used) == Remaining(show, values, out + plain, text[|plain|..], used)
  {
    assert Chunks(text, used, |values|)[1..] == Chunks(text[|plain|..], used, |values|);
  }

  lemma VerbStep<V>(show: (V, Spec) -> string, values: seq<V>, out: string, text: string, used: nat,
                    spec: Spec, verb: string)
    requires text != [] && FirstPiece(text) == Verb(spec, verb) && used < |values|
    ensures Remaining(show, values, out, text, used) ==
            Remaining(show, values, out + show(values[used], spec), text[|verb|..], used + 1)
  {
    assert Chunks(text, used, |values|)[1..] == Chunks(text[|verb|..], used + 1, |values|);
  }

  lemma TrailingStep<V>(show: (V, Spec) -> string, values: seq<V>, out: string, used: nat)
    requires used < |values|
    ensures Remaining(show, values, out, [], used) ==
            var spaced := if |out| > 0 then out + " " else out;
            Remaining(show, values, spaced + show(values[used], StringFormat), [], used + 1)
  {
    var cs := Trailing(used, |values|);
    var out' := Write(show, values, out, Space);
    assert WriteAll(show, values, out, cs) == WriteAll(show, values, out', cs[1..]);
    assert cs[1..][0] == Value(used, StringFormat, "");
    assert cs[1..][1..] == Trailing(used + 1, |values|);
  }

  method AppendRest<V>(show: (V, Spec) -> string, values: seq<V>, written: string, start: nat) returns (out: string)
    requires start <= |values|
    ensures out == Remaining(show, values, written, [], start)
  {
    out := written;
    for used := start to |values|
      invariant Remaining(show, values, out, [], used) == Remaining(show, values, written, [], start)
    {
      TrailingStep(show, values, out, used);
      if |out| > 0 {
        out := out + " ";
      }
      out := out + show(values[used], StringFormat);
    }
  }

  /** What a percent sign before `pos` starts is decided by what can be scanned from `pos`. */
  lemma SpecPiece(fmt: string, pos: nat)
    requires 0 < pos < |fmt| && fmt[pos - 1] == '%' && fmt[pos] != '%'
    ensures var (spec, consumed) := ScanSpec(fmt[pos..]);
            FirstPiece(fmt[pos - 1..]) == if spec.Some? then Verb(spec.value, "%" + consumed) else Plain("%" + consumed)
  {
    assert fmt[pos - 1..][1..] == fmt[pos..];
  }

  /** What the percent sign before `pos` starts is written: a value, or the text that was consumed. */
  lemma SpecStep<V>(show: (V, Spec) -> string, values: seq<V>, written: string, fmt: string, pos: nat, taken: nat,
                    spec: Option<Spec>, consumed: string)
    requires 0 < pos < |fmt| && fmt[pos - 1] == '%' && fmt[pos] != '%' && taken <= |values|
    requires (spec, consumed) == ScanSpec(fmt[pos..]) && pos + |consumed| <= |fmt|
    ensures var rest := fmt[pos + |consumed|..];
            Remaining(show, values, written, fmt[pos - 1..], taken) ==
            if spec.Some? && taken < |values|
            then Remaining(show, values, written + show(values[taken], spec.value), rest, taken + 1)
            else Remaining(show, values, written + ("%" + consumed), rest, taken)
  {
    var text := fmt[pos - 1..];
    SpecPiece(fmt, pos);
    assert text[|"%" + consumed|..] == fmt[pos + |consumed|..];
    if spec.Some? && taken < |values| {
      VerbStep(show, values, written, text, taken, spec.value, "%" + consumed);
    } else {
      PlainStep(show, values, written, text, taken, "%" + consumed);
    }
  }

  method WriteSpec<V>(show: (V, Spec) -> string, values: seq<V>, written: string, fmt: string, pos: nat, taken: nat)
    returns (out: string, next: nat, used: nat)
    requires 0 < pos < |fmt| && fmt[pos - 1] == '%' && fmt[pos] != '%' && taken <= |values|
    ensures pos < next <= |fmt| && used <= |values|
    ensures Remaining(show, values, written, fmt[pos - 1..], taken) == Remaining(show, values, out, fmt[next..], used)
  {
    var spec, consumed;
    spec, consumed, next := FormatSpecFromChars(fmt, pos);
    SpecStep(show, values, written, fmt, pos, taken, spec, consumed);
    if spec.Some? && taken < |values| {
      out, used := written + show(values[taken], spec.value), taken + 1;
    } else {
      out, used := written + ("%" + consumed), taken;
    }
  }

  lemma CharStep<V>(show: (V, Spec) -> string, values: seq<V>, out: string, fmt: string, pos: nat, used: nat)
    requires pos < |fmt| && (fmt[pos] != '%' || pos + 1 == |fmt| || fmt[pos + 1] == '%')
    ensures Remaining(show, values, out, fmt[pos..], used) ==
            Remaining(show, values, out + [fmt[pos]], fmt[pos + 1..], used)
  {
    assert fmt[pos..][1..] == fmt[pos + 1..];
    PlainStep(show, values, out, fmt[pos..], used, [fmt[pos]]);
  }

  method ConsoleFormat<V>(show: (V, Spec) -> string, fmtMsg: string, values: seq<V>) returns (out: string)
    ensures out == Formatted(show, fmtMsg, values)
  {
    var fmt := SkipMark(fmtMsg);
    ghost var goal := Formatted(show, fmtMsg, values);
    out := "";
    var used: nat := 0;
    var expectFmt := false;
    var pos: nat := 0;
    assert fmt[0..] == fmt;
    while pos < |fmt|
      invariant pos <= |fmt| && used <= |values|
      invariant expectFmt ==> 0 < pos < |fmt| && fmt[pos - 1] == '%' && fmt[pos] != '%'
      invariant expectFmt ==> Remaining(show, values, out, fmt[pos - 1..], used) == goal
      invariant !expectFmt ==> Remaining(show, values, out, fmt[pos..], used) == goal
      decreases |fmt| - pos
    {
      if expectFmt {
        expectFmt := false;
        out, pos, used := WriteSpec(show, values, out, fmt, pos, used);
      } else {
        var tok := fmt[pos];
        pos := pos + 1;
        if tok == '%' && pos < |fmt| && fmt[pos] != '%' {
          expectFmt := true;
        } else {
          CharStep(show, values, out, fmt, pos - 1, used);
          out := out + [tok];
        }
      }
    }
    assert fmt[pos..] == [];
    out := AppendRest(show, values, out, used);
  }

  // ----- nothing is lost -----

  /** The format text that was written or that a value stands for. */
  function SourceText(cs: seq<Chunk>): string {
    if cs == [] then ""
    else (if cs[0].Space? then "" else cs[0].text) + SourceText(cs[1..])
  }

  /** The numbers of the values, in the order they are written. */
  function Indices(cs: seq<Chunk>): seq<nat> {
    if cs == [] then [] else (if cs[0].Value? then [cs[0].index] else []) + Indices(cs[1..])
  }

  function Range(lo: nat, hi: nat): (r: seq<nat>)
    ensures |r| == if lo < hi then hi - lo else 0
    ensures forall i :: 0 <= i < |r| ==> r[i] == lo + i
    decreases hi - lo
  {
    if lo >= hi then [] else [lo] + Range(lo + 1, hi)
  }

  lemma {:induction false} TrailingConserves(used: nat, n: nat)
    ensures SourceText(Trailing(used, n)) == "" && Indices(Trailing(used, n)) == Range(used, n)
    decreases n - used
  {
    if used < n {
      TrailingConserves(used + 1, n);
      var cs := Trailing(used, n);
      assert cs[1..][1..] == Trailing(used + 1, n);
    }
  }

  lemma {:induction false} ChunksConserve(text: string, used: nat, n: nat)
    requires used <= n
    ensures SourceText(Chunks(text, used, n)) == text && Indices(Chunks(text, used, n)) == Range(used, n)
    decreases |text|
  {
    if text == [] {
      TrailingConserves(used, n);
    } else {
      var p := FirstPiece(text);
      var taken := p.Verb? && used < n;
      ChunksConserve(text[|p.text|..], if taken then used + 1 else used, n);
      assert text == p.text + text[|p.text|..];
      assert Chunks(text, used, n)[1..] == Chunks(text[|p.text|..], if taken then used + 1 else used, n);
    }
  }

  lemma {:induction false} WriteLiterals<V>(show: (V, Spec) -> string, out: string, text: string)
    ensures WriteAll(show, [], out, Chunks(text, 0, 0)) == out + text
    decreases |text|
  {
    if text != [] {
      var p := FirstPiece(text);
      WriteLiterals(show, out + p.text, text[|p.text|..]);
      assert text == p.text + text[|p.text|..];
      assert Chunks(text, 0, 0)[1..] == Chunks(text[|p.text|..], 0, 0);
    }
  }

  /**
   Conservation. The chunks written stand for exactly the characters of the format string, in order,
   malformed, truncated and over-long specifiers included; and every value is written exactly once, in
   order, in place of a specifier or after the end.
   */
  lemma TextAndValuesConserved(fmtMsg: string, n: nat)
    ensures SourceText(Chunks(SkipMark(fmtMsg), 0, n)) == SkipMark(fmtMsg)
    ensures Indices(Chunks(SkipMark(fmtMsg), 0, n)) == Range(0, n)
  {
    ChunksConserve(SkipMark(fmtMsg), 0, n);
  }

  /** With no values the format string comes back unchanged exactly if it has no byte order mark in front. */
  lemma NoValuesUnchanged<V>(show: (V, Spec) -> string, fmtMsg: string)
    ensures Formatted(show, fmtMsg, []) == fmtMsg <==> !(fmtMsg != [] && fmtMsg[0] == BYTE_ORDER_MARK)
  {
    WriteLiterals(show, "", SkipMark(fmtMsg));
    assert "" + SkipMark(fmtMsg) == SkipMark(fmtMsg);
  }
}
