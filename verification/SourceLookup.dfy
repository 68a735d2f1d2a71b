/**
 From a program counter to a file, line and column. Source files are read when first needed and their
 line tables kept; what a lookup answers does not depend on what was looked up before.
 */
module SourceLookup {
  import opened Basics
  import opened SourceMaps

  const TWO_32: nat := 0x1_0000_0000
  const NEWLINE: Byte := 10

  datatype LineCol = LineCol(line: nat, col: nat)

  predicate InRange(data: seq<Byte>, k: nat, lo: Byte, hi: Byte) {
    k < |data| && lo <= data[k] <= hi
  }

  /** The least and greatest byte that may follow a leading byte of three or four byte characters. */
  function SecondRange(lead: Byte): (Byte, Byte) {
    if lead == 0xe0 then (0xa0, 0xbf)
    else if lead == 0xed then (0x80, 0x9f)
    else if lead == 0xf0 then (0x90, 0xbf)
    else if lead == 0xf4 then (0x80, 0x8f)
    else (0x80, 0xbf)
  }

  /**
   How many bytes ranging over a string consumes at a position: a well-formed UTF-8 character (RFC 3629,
   section 4), or one byte that does not start one. A newline is never inside a character.
   */
  function RuneWidth(data: seq<Byte>, i: nat): (w: nat)
    requires i < |data|
    ensures 1 <= w <= |data| - i
    ensures forall k :: i < k < i + w ==> data[k] != NEWLINE
  {
    var lead := data[i];
    var (lo, hi) := SecondRange(lead);
    if !InRange(data, i + 1, lo, hi) then 1
    else if 0xc2 <= lead <= 0xdf then 2
    else if !InRange(data, i + 2, 0x80, 0xbf) then 1
    else if 0xe0 <= lead <= 0xef then 3
    else if !InRange(data, i + 3, 0x80, 0xbf) then 1
    else if 0xf0 <= lead <= 0xf4 then 4
    else 1
  }

  predicate IsScalar(cp: nat) {
    cp < 0x110000 && !(0xd800 <= cp <= 0xdfff)
  }

  /** The UTF-8 encoding of a Unicode scalar value (RFC 3629, section 3). */
  function Utf8(cp: nat): seq<Byte>
    requires IsScalar(cp)
  {
    if cp < 0x80 then [cp]
    else if cp < 0x800 then [0xc0 + cp / 64, 0x80 + cp % 64]
    else if cp < 0x10000 then [0xe0 + cp / 4096, 0x80 + cp / 64 % 64, 0x80 + cp % 64]
    else [0xf0 + cp / 262144, 0x80 + cp / 4096 % 64, 0x80 + cp / 64 % 64, 0x80 + cp % 64]
  }

  /** The leading byte and the one after it are in range. */
  lemma ThreeBytes(cp: nat)
    requires IsScalar(cp) && 0x800 <= cp < 0x10000
    ensures 0xe0 <= Utf8(cp)[0] <= 0xef && SecondRange(Utf8(cp)[0]).0 <= Utf8(cp)[1] <= SecondRange(Utf8(cp)[0]).1
  {
    if cp < 0x1000 {
      assert cp / 64 == cp / 64 % 64 >= 0x20;
    } else if 0xd000 <= cp < 0xd800 {
      assert cp / 64 % 64 == (cp - 0xd000) / 64;
    }
  }

  lemma FourBytes(cp: nat)
    requires IsScalar(cp) && 0x10000 <= cp
    ensures 0xf0 <= Utf8(cp)[0] <= 0xf4 && SecondRange(Utf8(cp)[0]).0 <= Utf8(cp)[1] <= SecondRange(Utf8(cp)[0]).1
  {
    if cp < 0x40000 {
      assert cp / 4096 == cp / 4096 % 64 >= 0x10;
    } else if 0x100000 <= cp {
      assert cp / 4096 % 64 == (cp - 0x100000) / 4096;
    }
  }

  /** Every encoded character is consumed whole, wherever it stands. */
  lemma CharacterWidth(before: seq<Byte>, cp: nat, after: seq<Byte>)
    requires IsScalar(cp)
    ensures RuneWidth(before + Utf8(cp) + after, |before|) == |Utf8(cp)|
  {
    var data, code := before + Utf8(cp) + after, Utf8(cp);
    assert forall k :: 0 <= k < |code| ==> data[|before| + k] == code[k];
    assert forall k :: 1 <= k < |code| ==> 0x80 <= code[k] <= 0xbf;
    assert data[|before|] == code[0];
    if 0x800 <= cp < 0x10000 {
      ThreeBytes(cp);
    } else if 0x10000 <= cp {
      FourBytes(cp);
    }
  }

  lemma TwoByteCharacter(a: Byte, b: Byte) returns (cp: nat)
    requires 0xc2 <= a <= 0xdf && 0x80 <= b <= 0xbf
    ensures IsScalar(cp) && Utf8(cp) == [a, b]
  {
    cp := (a - 0xc0) * 64 + (b - 0x80);
  }

  lemma ThreeByteCharacter(a: Byte, b: Byte, c: Byte) returns (cp: nat)
    requires 0xe0 <= a <= 0xef && SecondRange(a).0 <= b <= SecondRange(a).1 && 0x80 <= c <= 0xbf
    ensures IsScalar(cp) && Utf8(cp) == [a, b, c]
  {
    var high := (a - 0xe0) * 64 + (b - 0x80);
    cp := high * 64 + (c - 0x80);
    assert cp / 64 == high && cp % 64 == c - 0x80;
    assert cp / 4096 == a - 0xe0 && high % 64 == b - 0x80;
  }

  lemma FourByteCharacter(a: Byte, b: Byte, c: Byte, d: Byte) returns (cp: nat)
    requires 0xf0 <= a <= 0xf4 && SecondRange(a).0 <= b <= SecondRange(a).1
    requires 0x80 <= c <= 0xbf && 0x80 <= d <= 0xbf
    ensures IsScalar(cp) && Utf8(cp) == [a, b, c, d]
  {
    var high := (a - 0xf0) * 64 + (b - 0x80);
    var mid := high * 64 + (c - 0x80);
    cp := mid * 64 + (d - 0x80);
    assert cp / 64 == mid && cp % 64 == d - 0x80;
    assert cp / 4096 == high && mid % 64 == c - 0x80;
    assert cp / 262144 == a - 0xf0 && high % 64 == b - 0x80;
  }

  /** And nothing else is consumed as more than one byte: what is, is the encoding of a scalar value. */
  lemma WideIsCharacter(data: seq<Byte>, i: nat) returns (cp: nat)
    requires i < |data| && RuneWidth(data, i) > 1
    ensures IsScalar(cp) && data[i..i + RuneWidth(data, i)] == Utf8(cp)
  {
    var w := RuneWidth(data, i);
    if w == 2 {
      cp := TwoByteCharacter(data[i], data[i + 1]);
    } else if w == 3 {
      cp := ThreeByteCharacter(data[i], data[i + 1], data[i + 2]);
    } else {
      cp := FourByteCharacter(data[i], data[i + 1], data[i + 2], data[i + 3]);
    }
  }

  function Newlines(data: seq<Byte>): nat {
    if data == [] then 0 else Newlines(data[..|data| - 1]) + if data[|data| - 1] == NEWLINE then 1 else 0
  }

  /** The position of the last newline, or 0. */
  function LastNewline(data: seq<Byte>): (p: nat)
    ensures p <= |data|
  {
    if data == [] then 0
    else if data[|data| - 1] == NEWLINE then |data| - 1
    else LastNewline(data[..|data| - 1])
  }

  /** The line and column of position `i`: what is before it decides. */
  function PlaceOf(data: seq<Byte>, i: nat): LineCol
    requires i <= |data|
  {
    LineCol((1 + Newlines(data[..i])) % TWO_32, (i - LastNewline(data[..i])) % TWO_32)
  }

  /** Whether a character starts at `at`, decoding from `from`. */
  predicate IsStart(data: seq<Byte>, from: nat, at: nat)
    requires at <= |data|
    decreases at - from
  {
    from == at || (from < at && IsStart(data, from + RuneWidth(data, from), at))
  }

  lemma {:induction false} NoNewlines(data: seq<Byte>, i: nat, j: nat)
    requires i <= j <= |data| && forall k :: i <= k < j ==> data[k] != NEWLINE
    ensures Newlines(data[..j]) == Newlines(data[..i]) && LastNewline(data[..j]) == LastNewline(data[..i])
  {
    if i < j {
      NoNewlines(data, i, j - 1);
      assert data[..j][..j - 1] == data[..j - 1];
    }
  }

  /** Crossing the character at `i`. */
  lemma CharacterPlace(data: seq<Byte>, i: nat, w: nat)
    requires i < i + w <= |data| && forall k :: i < k < i + w ==> data[k] != NEWLINE
    ensures Newlines(data[..i + w]) == Newlines(data[..i]) + if data[i] == NEWLINE then 1 else 0
    ensures LastNewline(data[..i + w]) == if data[i] == NEWLINE then i else LastNewline(data[..i])
  {
    NoNewlines(data, i + 1, i + w);
    assert data[..i + 1][..i] == data[..i];
  }

  lemma {:induction false} StartsFrom(data: seq<Byte>, from: nat, mid: nat, at: nat)
    requires mid < at <= |data| && IsStart(data, from, mid)
    ensures at < mid + RuneWidth(data, mid) ==> !IsStart(data, from, at)
    ensures at == mid + RuneWidth(data, mid) ==> IsStart(data, from, at)
    decreases mid - from
  {
    if from < mid {
      StartsFrom(data, from + RuneWidth(data, from), mid, at);
    }
  }

  /** The line table of a file: a place where a character starts, nothing in between. */
  function LineTable(data: seq<Byte>): seq<LineCol> {
    seq(|data|, i requires 0 <= i < |data| => if IsStart(data, 0, i) then PlaceOf(data, i) else LineCol(0, 0))
  }

  /** The table up to `i`, and nothing after. */
  ghost predicate FilledTo(data: seq<Byte>, out: seq<LineCol>, i: nat) {
    && i <= |data| == |out|
    && (forall k :: 0 <= k < i ==> out[k] == LineTable(data)[k])
    && (forall k :: i <= k < |data| ==> out[k] == LineCol(0, 0))
  }

  lemma FilledNext(data: seq<Byte>, out: seq<LineCol>, i: nat)
    requires i < |data| && FilledTo(data, out, i) && IsStart(data, 0, i)
    ensures FilledTo(data, out[i := PlaceOf(data, i)], i + RuneWidth(data, i))
    ensures IsStart(data, 0, i + RuneWidth(data, i))
  {
    forall k | i < k <= i + RuneWidth(data, i) ensures IsStart(data, 0, k) == (k == i + RuneWidth(data, i)) {
      StartsFrom(data, 0, i, k);
    }
  }

  /** What the loop knows at position `i`. */
  ghost predicate Scanned(data: seq<Byte>, out: seq<LineCol>, i: nat, line: nat, lastLinePos: nat) {
    && FilledTo(data, out, i) && IsStart(data, 0, i)
    && line == (1 + Newlines(data[..i])) % TWO_32 && lastLinePos == LastNewline(data[..i])
  }

  /** Crossing the character at `i`. */
  lemma ScannedNext(data: seq<Byte>, out: seq<LineCol>, i: nat, line: nat, lastLinePos: nat)
    requires i < |data| && Scanned(data, out, i, line, lastLinePos)
    ensures lastLinePos <= i
    ensures var newline := data[i] == NEWLINE;
            Scanned(data, out[i := LineCol(line, (i - lastLinePos) % TWO_32)], i + RuneWidth(data, i),
                    if newline then (line + 1) % TWO_32 else line, if newline then i else lastLinePos)
  {
    FilledNext(data, out, i);
    CharacterPlace(data, i, RuneWidth(data, i));
  }

  method LoadLineColData(data: seq<Byte>) returns (out: seq<LineCol>)
    ensures out == LineTable(data)
  {
    out := seq(|data|, _ => LineCol(0, 0));
    var line: nat := 1;
    var lastLinePos: nat := 0;
    var i: nat := 0;
    while i < |data|
      invariant Scanned(data, out, i, line, lastLinePos)
      decreases |data| - i
    {
      ScannedNext(data, out, i, line, lastLinePos);
      out := out[i := LineCol(line, (i - lastLinePos) % TWO_32)];
      if data[i] == NEWLINE {
        lastLinePos := i;
        line := (line + 1) % TWO_32;
      }
      i := i + RuneWidth(data, i);
    }
  }

  /** What a lookup answers. */
  datatype Place = Place(source: string, line: nat, col: nat) | LoadError(source: string)

  class SourceMap {
    const files: string -> Option<seq<Byte>>
    const srcIDToPath: map<int, string>
    const instr: seq<InstrMapping>
    var posData: map<int, seq<LineCol>>

    /** The tables kept are those of the files. */
    ghost predicate Valid()
      reads this
    {
      forall id :: id in posData ==>
        id in srcIDToPath && files(srcIDToPath[id]).Some? &&
        posData[id] == LineTable(files(srcIDToPath[id]).value)
    }

    /** A source map with nothing loaded yet. */
    constructor (files: string -> Option<seq<Byte>>, srcIDToPath: map<int, string>, instr: seq<InstrMapping>)
      ensures Valid() && posData == map[]
      ensures this.files == files && this.srcIDToPath == srcIDToPath && this.instr == instr
    {
      this.files, this.srcIDToPath, this.instr, posData := files, srcIDToPath, instr, map[];
    }

    /** What a lookup answers when nothing is kept. */
    function PlaceAt(pc: nat): Place {
      if pc >= |instr| then Place("invalid", 0, 0)
      else if instr[pc].f < 0 || instr[pc] == ZERO then Place("generated", 0, 0)
      else if instr[pc].f !in srcIDToPath then Place("unknown", 0, 0)
      else
        var source := srcIDToPath[instr[pc].f];
        if instr[pc].s < 0 then Place(source, 0, 0)
        else if files(source).None? then LoadError(source)
        else
          var table := LineTable(files(source).value);
          if instr[pc].s >= |table| then Place(source, 0, 0)
          else Place(source, table[instr[pc].s].line, table[instr[pc].s].col)
    }

    method Info(pc: nat) returns (r: Place)
      requires Valid()
      modifies this
      ensures Valid()
      ensures r == PlaceAt(pc)
      ensures forall id :: id in old(posData) ==> id in posData && posData[id] == old(posData[id])
    {
      if pc >= |instr| {
        return Place("invalid", 0, 0);
      }
      var instr := instr[pc];
      if instr.f < 0 || instr == ZERO {
        return Place("generated", 0, 0);
      }
      var id := instr.f;
      if id !in srcIDToPath {
        return Place("unknown", 0, 0);
      }
      var source := srcIDToPath[id];
      if instr.s < 0 {
        return Place(source, 0, 0);
      }
      var table: seq<LineCol>;
      if id in posData {
        table := posData[id];
      } else {
        var data := files(source);
        if data.None? {
          return LoadError(source);
        }
        table := LoadLineColData(data.value);
        posData := posData[id := table];
      }
      if instr.s >= |table| {
        return Place(source, 0, 0);
      }
      return Place(source, table[instr.s].line, table[instr.s].col);
    }
  }

  /**
   The place of an instruction whose mapping starts at a character of a known file: that file, one plus the
   newlines before the character, and how far the character is from the last of them.
   */
  lemma PlaceOfMapping(sm: SourceMap, pc: nat, data: seq<Byte>)
    requires pc < |sm.instr| && sm.instr[pc] != ZERO && sm.instr[pc].f in sm.srcIDToPath
    requires 0 <= sm.instr[pc].f && 0 <= sm.instr[pc].s < |data| < TWO_32 && IsStart(data, 0, sm.instr[pc].s)
    requires sm.files(sm.srcIDToPath[sm.instr[pc].f]) == Some(data)
    ensures var before := data[..sm.instr[pc].s];
            && Newlines(before) <= |before| && LastNewline(before) <= |before|
            && sm.PlaceAt(pc) ==
               Place(sm.srcIDToPath[sm.instr[pc].f], (1 + Newlines(before)) % TWO_32, |before| - LastNewline(before))
  {
    FewNewlines(data[..sm.instr[pc].s]);
  }

  lemma {:induction false} FewNewlines(data: seq<Byte>)
    ensures Newlines(data) <= |data|
  {
    if data != [] {
      FewNewlines(data[..|data| - 1]);
    }
  }

  /** The answers for instructions that have no such place. */
  lemma OtherPlaces(sm: SourceMap, pc: nat)
    ensures pc >= |sm.instr| ==> sm.PlaceAt(pc) == Place("invalid", 0, 0)
    ensures pc < |sm.instr| && (sm.instr[pc].f < 0 || sm.instr[pc] == ZERO) ==>
              sm.PlaceAt(pc) == Place("generated", 0, 0)
    ensures pc < |sm.instr| && sm.instr[pc] != ZERO && sm.instr[pc].f >= 0 ==>
              var m := sm.instr[pc];
              if m.f !in sm.srcIDToPath then sm.PlaceAt(pc) == Place("unknown", 0, 0)
              else if m.s < 0 then sm.PlaceAt(pc) == Place(sm.srcIDToPath[m.f], 0, 0)
              else
                match sm.files(sm.srcIDToPath[m.f])
                case None => sm.PlaceAt(pc) == LoadError(sm.srcIDToPath[m.f])
                case Some(data) => m.s >= |data| ==> sm.PlaceAt(pc) == Place(sm.srcIDToPath[m.f], 0, 0)
  {
  }
}
