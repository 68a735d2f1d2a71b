/**
 Solidity source maps (the "Source Mappings" section of the Solidity documentation, Internals): a text of
 entries `s:l:f:j:m` separated by `;`, one per instruction, in which a field that is empty or missing is
 that of the entry before. Text is a sequence of bytes, written here as characters.
 */
module SourceMaps {
  import opened Basics
  import opened Decimals
  import opened Strings

  datatype InstrMapping = InstrMapping(s: int, l: int, f: int, j: char, m: int)

  /** What the entry before the first one is taken to be. */
  const ZERO := InstrMapping(0, 0, 0, '\0', 0)

  // ----- one entry -----

  function Field(fields: seq<string>, k: nat): string {
    if k < |fields| then fields[k] else ""
  }

  function IntField(text: string, inherited: int): Option<int> {
    if text == "" then Some(inherited) else ParseInt32(text)
  }

  /** What an entry says after `last`; none if it has too many fields or a field that is no number. */
  function Decoded(last: InstrMapping, v: string): Option<InstrMapping> {
    var fields := Split(v, ':');
    if |fields| > 5 then None
    else
      var s :- IntField(Field(fields, 0), last.s);
      var l :- IntField(Field(fields, 1), last.l);
      var f :- IntField(Field(fields, 2), last.f);
      var m :- IntField(Field(fields, 4), last.m);
      Some(InstrMapping(s, l, f, if Field(fields, 3) == "" then last.j else Field(fields, 3)[0], m))
  }

  method ParseInstrMapping(last: InstrMapping, v: string) returns (r: Option<InstrMapping>)
    ensures r == Decoded(last, v)
  {
    var data := Split(v, ':');
    var out := last;
    if |data| > 5 {
      return None;
    }
    if data[0] != "" {
      var p := ParseInt32(data[0]);
      if p.None? { return None; }
      out := out.(s := p.value);
    }
    if |data| < 2 {
      return Some(out);
    }
    if data[1] != "" {
      var p := ParseInt32(data[1]);
      if p.None? { return None; }
      out := out.(l := p.value);
    }
    if |data| < 3 {
      return Some(out);
    }
    if data[2] != "" {
      var p := ParseInt32(data[2]);
      if p.None? { return None; }
      out := out.(f := p.value);
    }
    if |data| < 4 {
      return Some(out);
    }
    if data[3] != "" {
      out := out.(j := data[3][0]);
    }
    if |data| < 5 {
      return Some(out);
    }
    if data[4] != "" {
      var p := ParseInt32(data[4]);
      if p.None? { return None; }
      out := out.(m := p.value);
    }
    return Some(out);
  }

  // ----- every way to write an entry -----

  predicate Int32(n: int) {
    MIN_INT32 <= n <= MAX_INT32
  }

  predicate ValidMapping(m: InstrMapping) {
    Int32(m.s) && Int32(m.l) && Int32(m.f) && Int32(m.m) && (m.j == 'i' || m.j == 'o' || m.j == '-')
  }

  /** The five fields of a mapping, written out. */
  function Written(m: InstrMapping): seq<string> {
    [PrintInt(m.s), PrintInt(m.l), PrintInt(m.f), [m.j], PrintInt(m.m)]
  }

  predicate SameField(last: InstrMapping, m: InstrMapping, k: nat) {
    match k
    case 0 => m.s == last.s
    case 1 => m.l == last.l
    case 2 => m.f == last.f
    case 3 => m.j == last.j
    case _ => m.m == last.m
  }

  /** `text` is a field of `m` after `last`: written out, or empty if it is the same. */
  predicate FieldOf(last: InstrMapping, m: InstrMapping, k: nat, text: string)
    requires k < 5
  {
    text == Written(m)[k] || (text == "" && SameField(last, m, k))
  }

  /** `fields` are a way to write `m` after `last`; fields left off the end count as empty. */
  ghost predicate Encodes(last: InstrMapping, m: InstrMapping, fields: seq<string>) {
    && 1 <= |fields| <= 5
    && forall k :: 0 <= k < 5 ==> FieldOf(last, m, k, Field(fields, k))
  }

  lemma PrintIntText(n: int, c: char)
    requires c != '-' && !IsDigit(c)
    ensures c !in PrintInt(n) && PrintInt(n) != ""
  {
  }

  lemma FieldText(last: InstrMapping, m: InstrMapping, k: nat, text: string, c: char)
    requires ValidMapping(m) && k < 5 && FieldOf(last, m, k, text) && (c == ':' || c == ';')
    ensures c !in text
  {
    PrintIntText(m.s, c);
    PrintIntText(m.l, c);
    PrintIntText(m.f, c);
    PrintIntText(m.m, c);
  }

  lemma IntFieldReads(n: int, inherited: int, text: string)
    requires Int32(n) && (text == PrintInt(n) || (text == "" && n == inherited))
    ensures IntField(text, inherited) == Some(n)
  {
    ParsePrinted(n);
    PrintIntText(n, ':');
  }

  /** Whichever way an entry is written, it is read back as the mapping it stands for. */
  lemma EntryReads(last: InstrMapping, m: InstrMapping, fields: seq<string>)
    requires ValidMapping(m) && Encodes(last, m, fields)
    ensures Decoded(last, Join(fields, ':')) == Some(m)
  {
    forall k | 0 <= k < |fields| ensures ':' !in fields[k] {
      assert FieldOf(last, m, k, Field(fields, k));
      FieldText(last, m, k, fields[k], ':');
    }
    SplitJoin(fields, ':');
    assert FieldOf(last, m, 0, Field(fields, 0));
    IntFieldReads(m.s, last.s, Field(fields, 0));
    assert FieldOf(last, m, 1, Field(fields, 1));
    IntFieldReads(m.l, last.l, Field(fields, 1));
    assert FieldOf(last, m, 2, Field(fields, 2));
    IntFieldReads(m.f, last.f, Field(fields, 2));
    assert FieldOf(last, m, 3, Field(fields, 3));
    assert FieldOf(last, m, 4, Field(fields, 4));
    IntFieldReads(m.m, last.m, Field(fields, 4));
  }

  /**
   Any entry, field by field: it can be read exactly if it has at most five fields and each of the four numbers
   is empty, missing or a 32-bit number; such a field is then that of the entry before; of the jump field the
   first character counts.
   */
  lemma EntryByFields(last: InstrMapping, fields: seq<string>, r: Option<InstrMapping>)
    requires fields != [] && forall k :: 0 <= k < |fields| ==> ':' !in fields[k]
    requires r == Decoded(last, Join(fields, ':'))
    ensures r.Some? <==>
              && |fields| <= 5 && NumberOrEmpty(Field(fields, 0)) && NumberOrEmpty(Field(fields, 1))
              && NumberOrEmpty(Field(fields, 2)) && NumberOrEmpty(Field(fields, 4))
    ensures r.Some? ==>
              && IntField(Field(fields, 0), last.s) == Some(r.value.s)
              && IntField(Field(fields, 1), last.l) == Some(r.value.l)
              && IntField(Field(fields, 2), last.f) == Some(r.value.f)
              && IntField(Field(fields, 4), last.m) == Some(r.value.m)
              && r.value.j == if |fields| <= 3 || fields[3] == "" then last.j else fields[3][0]
  {
    SplitJoin(fields, ':');
  }

  predicate NumberOrEmpty(text: string) {
    text == "" || ParseInt32(text).Some?
  }

  // ----- whole maps -----

  /** The entries decoded one after the other. */
  function DecodedAll(last: InstrMapping, entries: seq<string>): Option<seq<InstrMapping>>
    decreases |entries|
  {
    if entries == [] then Some([])
    else
      var m :- Decoded(last, entries[0]);
      var rest :- DecodedAll(m, entries[1..]);
      Some([m] + rest)
  }

  /** `entries` are a way to write `ms`, one entry each. */
  ghost predicate EncodesAll(last: InstrMapping, ms: seq<InstrMapping>, entries: seq<seq<string>>)
    decreases |ms|
  {
    && |entries| == |ms|
    && (ms != [] ==>
          ValidMapping(ms[0]) && Encodes(last, ms[0], entries[0]) && EncodesAll(ms[0], ms[1..], entries[1..]))
  }

  function Texts(entries: seq<seq<string>>): (r: seq<string>)
    requires forall k :: 0 <= k < |entries| ==> |entries[k]| > 0
    ensures |r| == |entries|
  {
    if entries == [] then [] else [Join(entries[0], ':')] + Texts(entries[1..])
  }

  lemma {:induction false} JoinText(fields: seq<string>)
    requires |fields| > 0 && forall k :: 0 <= k < |fields| ==> ';' !in fields[k]
    ensures ';' !in Join(fields, ':')
  {
    if |fields| > 1 {
      JoinText(fields[1..]);
    }
  }

  /** An entry has no entry separator in its text, and reads as its mapping. */
  lemma EntryTextReads(last: InstrMapping, m: InstrMapping, fields: seq<string>)
    requires ValidMapping(m) && Encodes(last, m, fields)
    ensures ';' !in Join(fields, ':') && Decoded(last, Join(fields, ':')) == Some(m)
  {
    forall k | 0 <= k < |fields| ensures ';' !in fields[k] {
      assert FieldOf(last, m, k, Field(fields, k));
      FieldText(last, m, k, fields[k], ';');
    }
    JoinText(fields);
    EntryReads(last, m, fields);
  }

  lemma {:induction false} EntriesRead(last: InstrMapping, ms: seq<InstrMapping>, entries: seq<seq<string>>)
    requires EncodesAll(last, ms, entries)
    ensures forall k :: 0 <= k < |entries| ==> |entries[k]| > 0
    ensures forall k :: 0 <= k < |entries| ==> ';' !in Texts(entries)[k]
    ensures DecodedAll(last, Texts(entries)) == Some(ms)
    decreases |ms|
  {
    if ms != [] {
      EntriesRead(ms[0], ms[1..], entries[1..]);
      assert forall k :: 1 <= k < |entries| ==> entries[k] == entries[1..][k - 1];
      EntryTextReads(last, ms[0], entries[0]);
      assert Texts(entries)[1..] == Texts(entries[1..]);
      assert ms == [ms[0]] + ms[1..];
    }
  }

  /**
   Lossless decoding: any text that writes a non-empty sequence of mappings by the rules of the format,
   field by field, is decoded to that sequence.
   */
  lemma LosslessDecoding(ms: seq<InstrMapping>, entries: seq<seq<string>>)
    requires ms != [] && EncodesAll(ZERO, ms, entries)
    ensures forall k :: 0 <= k < |entries| ==> |entries[k]| > 0
    ensures DecodedAll(ZERO, Split(Join(Texts(entries), ';'), ';')) == Some(ms)
  {
    EntriesRead(ZERO, ms, entries);
    SplitJoin(Texts(entries), ';');
  }

  // ----- the shortest way -----

  /** The fields of `m`, empty where they are those of `last`. */
  function Abbreviated(last: InstrMapping, m: InstrMapping): seq<string> {
    seq(5, k requires 0 <= k < 5 => if SameField(last, m, k) then "" else Written(m)[k])
  }

  /** Empty fields at the end are left off; the first one stays. */
  function Trimmed(fields: seq<string>): seq<string> {
    if |fields| > 1 && fields[|fields| - 1] == "" then Trimmed(fields[..|fields| - 1]) else fields
  }

  function Compressed(last: InstrMapping, ms: seq<InstrMapping>): (r: seq<seq<string>>)
    ensures |r| == |ms|
    ensures forall k :: 0 <= k < |r| ==> |r[k]| > 0
    decreases |ms|
  {
    if ms == [] then []
    else
      TrimmedFields(Abbreviated(last, ms[0]));
      [Trimmed(Abbreviated(last, ms[0]))] + Compressed(ms[0], ms[1..])
  }

  function CompressedText(ms: seq<InstrMapping>): string {
    if ms == [] then "" else Join(Texts(Compressed(ZERO, ms)), ';')
  }

  lemma {:induction false} TrimmedFields(fields: seq<string>)
    ensures |Trimmed(fields)| <= |fields| && (|fields| > 0 ==> |Trimmed(fields)| > 0)
    ensures forall k: nat :: Field(Trimmed(fields), k) == Field(fields, k)
  {
    if |fields| > 1 && fields[|fields| - 1] == "" {
      TrimmedFields(fields[..|fields| - 1]);
    }
  }

  lemma {:induction false} CompressedEncodes(last: InstrMapping, ms: seq<InstrMapping>)
    requires forall k :: 0 <= k < |ms| ==> ValidMapping(ms[k])
    ensures EncodesAll(last, ms, Compressed(last, ms))
    decreases |ms|
  {
    if ms != [] {
      var fields := Abbreviated(last, ms[0]);
      TrimmedFields(fields);
      assert forall k :: 0 <= k < 5 ==> Field(Trimmed(fields), k) == fields[k];
      CompressedEncodes(ms[0], ms[1..]);
      assert Compressed(last, ms)[1..] == Compressed(ms[0], ms[1..]);
    }
  }

  /** Compressing and decoding returns the same sequence, unless it is empty: an empty text is one entry. */
  lemma CompressionRoundTrip(ms: seq<InstrMapping>)
    requires forall k :: 0 <= k < |ms| ==> ValidMapping(ms[k])
    ensures DecodedAll(ZERO, Split(CompressedText(ms), ';')) == Some(ms) <==> ms != []
  {
    if ms != [] {
      CompressedEncodes(ZERO, ms);
      LosslessDecoding(ms, Compressed(ZERO, ms));
    } else {
      assert |DecodedAll(ZERO, [""]).value| == 1;
    }
  }

  // ----- the sweep over the bytecode -----

  function InstrLen(inst: Byte): nat {
    if 0x60 <= inst <= 0x7f then 1 + (inst - 0x60 + 1) else 1
  }

  /** Where the instructions of the bytecode from `i` on start. */
  function Starts(code: seq<Byte>, i: nat): (r: seq<nat>)
    ensures i < |code| ==> |r| > 0 && r[0] == i
    decreases |code| - i
  {
    if i >= |code| then [] else [i] + Starts(code, i + InstrLen(code[i]))
  }

  /** Where the sweep from `i` ends; the data of a last push may be missing. */
  function SweepEnd(code: seq<Byte>, i: nat): nat
    decreases |code| - i
  {
    if i >= |code| then i else SweepEnd(code, i + InstrLen(code[i]))
  }

  /** The mapping of the k-th instruction: the first k + 1 entries, with empty ones after the last. */
  function MappingOf(entries: seq<string>, k: nat): Option<InstrMapping> {
    var last :- if k == 0 then Some(ZERO) else MappingOf(entries, k - 1);
    Decoded(last, Field(entries, k))
  }

  /** The entry of the k-th instruction, and those before it, can be read. */
  predicate Readable(entries: seq<string>, k: nat) {
    MappingOf(entries, k).Some?
  }

  predicate Inside(code: seq<Byte>, start: nat, off: nat) {
    start < |code| && start <= off < start + InstrLen(code[start])
  }

  /** Every byte of the k-th instruction, push data included, has the mapping of that instruction. */
  ghost predicate Row(code: seq<Byte>, entries: seq<string>, table: seq<InstrMapping>, k: nat) {
    k < |Starts(code, 0)| &&
    forall off: nat :: Inside(code, Starts(code, 0)[k], off) ==>
      off < |table| && MappingOf(entries, k) == Some(table[off])
  }

  ghost predicate IsTable(code: seq<Byte>, entries: seq<string>, table: seq<InstrMapping>) {
    && |table| == SweepEnd(code, 0)
    && forall k :: 0 <= k < |Starts(code, 0)| ==> Row(code, entries, table, k)
  }

  lemma RowGrows(code: seq<Byte>, entries: seq<string>, table: seq<InstrMapping>, table': seq<InstrMapping>, k: nat)
    requires Row(code, entries, table, k) && table <= table'
    ensures Row(code, entries, table', k)
  {
  }

  ghost predicate AllReadable(code: seq<Byte>, entries: seq<string>) {
    forall k :: 0 <= k < |Starts(code, 0)| ==> Readable(entries, k)
  }

  lemma RowAppended(code: seq<Byte>, entries: seq<string>, table: seq<InstrMapping>, table': seq<InstrMapping>, k: nat)
    requires k < |Starts(code, 0)| && Starts(code, 0)[k] == |table| < |code|
    requires |table'| == |table| + InstrLen(code[|table|]) && table <= table'
    requires forall off :: |table| <= off < |table'| ==> MappingOf(entries, k) == Some(table'[off])
    ensures Row(code, entries, table', k)
  {
  }

  /** The table covers the first `n` instructions, and their entries can be read. */
  ghost predicate Swept(code: seq<Byte>, entries: seq<string>, table: seq<InstrMapping>, n: nat) {
    && SweepEnd(code, |table|) == SweepEnd(code, 0)
    && n <= |Starts(code, 0)| && Starts(code, 0)[n..] == Starts(code, |table|)
    && forall k :: 0 <= k < n ==> Readable(entries, k) && Row(code, entries, table, k)
  }

  lemma SweptNext(code: seq<Byte>, entries: seq<string>, table: seq<InstrMapping>, n: nat)
    requires Swept(code, entries, table, n) && |table| < |code|
    ensures n < |Starts(code, 0)| && Starts(code, 0)[n] == |table|
  {
    assert Starts(code, 0)[n] == Starts(code, 0)[n..][0];
  }

  lemma SweptStep(code: seq<Byte>, entries: seq<string>, table: seq<InstrMapping>, n: nat, table': seq<InstrMapping>)
    requires Swept(code, entries, table, n) && |table| < |code| && Readable(entries, n)
    requires |table'| == |table| + InstrLen(code[|table|]) && table <= table'
    requires forall off :: |table| <= off < |table'| ==> MappingOf(entries, n) == Some(table'[off])
    ensures Swept(code, entries, table', n + 1)
  {
    SweptNext(code, entries, table, n);
    assert Starts(code, 0)[n + 1..] == Starts(code, 0)[n..][1..];
    RowAppended(code, entries, table, table', n);
    forall k | 0 <= k < n ensures Row(code, entries, table', k) {
      RowGrows(code, entries, table, table', k);
    }
  }

  method ParseSourceMap(code: seq<Byte>, sourceMap: string) returns (r: Option<seq<InstrMapping>>)
    ensures r.Some? <==> AllReadable(code, Split(sourceMap, ';'))
    ensures r.Some? ==> IsTable(code, Split(sourceMap, ';'), r.value)
  {
    var instructions := Split(sourceMap, ';');
    var table: seq<InstrMapping> := [];
    var instIndex := 0;
    var lastInstr := ZERO;
    var i := 0;
    while i < |code|
      invariant |table| == i && Swept(code, instructions, table, instIndex)
      invariant Some(lastInstr) == if instIndex == 0 then Some(ZERO) else MappingOf(instructions, instIndex - 1)
      decreases |code| - i
    {
      var instLen := InstrLen(code[i]);
      var instMapping := "";
      if instIndex < |instructions| {
        instMapping := instructions[instIndex];
      }
      var m := ParseInstrMapping(lastInstr, instMapping);
      assert MappingOf(instructions, instIndex) == m;
      assert Readable(instructions, instIndex) == m.Some?;
      if m.None? {
        SweptNext(code, instructions, table, instIndex);
        return None;
      }
      ghost var before := table;
      for j := 0 to instLen
        invariant |table| == i + j && before <= table
        invariant forall off :: i <= off < i + j ==> table[off] == m.value
      {
        table := table + [m.value];
      }
      SweptStep(code, instructions, before, instIndex, table);
      lastInstr := m.value;
      i := i + instLen;
      instIndex := instIndex + 1;
    }
    return Some(table);
  }

  // ----- what a table says -----

  lemma {:induction false} SweepLength(code: seq<Byte>, i: nat)
    requires i <= |code| + 32
    ensures |code| <= SweepEnd(code, i) <= |code| + 32
    decreases |code| - i
  {
    if i < |code| {
      SweepLength(code, i + InstrLen(code[i]));
    }
  }

  /** Every position the sweep passes is inside an instruction. */
  lemma {:induction false} Covered(code: seq<Byte>, i: nat, off: nat) returns (k: nat)
    requires i <= off < SweepEnd(code, i)
    ensures k < |Starts(code, i)| && Inside(code, Starts(code, i)[k], off)
    decreases |code| - i
  {
    if off < i + InstrLen(code[i]) {
      k := 0;
    } else {
      var k' := Covered(code, i + InstrLen(code[i]), off);
      k := k' + 1;
    }
  }

  /** There is one table for a bytecode and a text, and it is as long as the sweep. */
  lemma TableUnique(code: seq<Byte>, entries: seq<string>, t1: seq<InstrMapping>, t2: seq<InstrMapping>)
    requires IsTable(code, entries, t1) && IsTable(code, entries, t2)
    ensures t1 == t2 && |code| <= |t1| <= |code| + 32
  {
    SweepLength(code, 0);
    forall off | 0 <= off < |t1| ensures t1[off] == t2[off] {
      var k := Covered(code, 0, off);
      assert Row(code, entries, t1, k) && Row(code, entries, t2, k);
    }
  }

  /** Once the entries run out the last mapping is repeated. */
  lemma {:induction false} LastRepeats(entries: seq<string>, k: nat)
    requires |entries| > 0 && k >= |entries| - 1
    ensures MappingOf(entries, k) == MappingOf(entries, |entries| - 1)
  {
    if k >= |entries| {
      LastRepeats(entries, k - 1);
      if MappingOf(entries, k - 1).Some? {
        assert Decoded(MappingOf(entries, k - 1).value, "") == MappingOf(entries, k - 1);
      }
    }
  }

  lemma {:induction false} MappingsDecoded(last: InstrMapping, entries: seq<string>, ms: seq<InstrMapping>, k: nat)
    requires DecodedAll(last, entries) == Some(ms) && k < |ms|
    ensures |ms| == |entries|
    ensures Some(ms[k]) == Decoded(if k == 0 then last else ms[k - 1], entries[k])
    decreases |entries|
  {
    var rest := DecodedAll(ms[0], entries[1..]).value;
    assert ms == [ms[0]] + rest;
    if k > 0 {
      MappingsDecoded(ms[0], entries[1..], rest, k - 1);
    } else if |rest| > 0 {
      MappingsDecoded(ms[0], entries[1..], rest, 0);
    } else {
      assert entries[1..] == [];
    }
  }

  lemma {:induction false} MappingIs(entries: seq<string>, ms: seq<InstrMapping>, k: nat)
    requires DecodedAll(ZERO, entries) == Some(ms) && k < |ms|
    ensures |ms| == |entries| && MappingOf(entries, k) == Some(ms[k])
  {
    MappingsDecoded(ZERO, entries, ms, k);
    if k > 0 {
      MappingIs(entries, ms, k - 1);
    }
  }

  lemma MappingOrLast(texts: seq<string>, ms: seq<InstrMapping>, k: nat)
    requires ms != [] && DecodedAll(ZERO, texts) == Some(ms)
    ensures MappingOf(texts, k) == Some(if k < |ms| then ms[k] else ms[|ms| - 1])
  {
    if k < |ms| {
      MappingIs(texts, ms, k);
    } else {
      MappingIs(texts, ms, |ms| - 1);
      LastRepeats(texts, k);
    }
  }

  lemma TableEntry(code: seq<Byte>, texts: seq<string>, ms: seq<InstrMapping>, table: seq<InstrMapping>,
                   k: nat, off: nat)
    requires ms != [] && DecodedAll(ZERO, texts) == Some(ms) && IsTable(code, texts, table)
    requires k < |Starts(code, 0)| && Inside(code, Starts(code, 0)[k], off)
    ensures off < |table|
    ensures table[off] == if k < |ms| then ms[k] else ms[|ms| - 1]
  {
    assert Row(code, texts, table, k);
    MappingOrLast(texts, ms, k);
  }

  lemma MappingsReadable(code: seq<Byte>, texts: seq<string>, ms: seq<InstrMapping>)
    requires ms != [] && DecodedAll(ZERO, texts) == Some(ms)
    ensures AllReadable(code, texts)
  {
    forall k | 0 <= k < |Starts(code, 0)| ensures Readable(texts, k) {
      MappingOrLast(texts, ms, k);
    }
  }

  /**
   Sweep refinement. For every bytecode and every way to write a non-empty sequence of mappings, the table can be
   made, and gives each byte of the k-th instruction the k-th mapping, and the last one once they run out.
   */
  lemma TableOfMappings(code: seq<Byte>, ms: seq<InstrMapping>, entries: seq<seq<string>>, text: string,
                        table: seq<InstrMapping>, k: nat, off: nat)
    requires ms != [] && EncodesAll(ZERO, ms, entries)
    requires (forall i :: 0 <= i < |entries| ==> |entries[i]| > 0) && text == Join(Texts(entries), ';')
    requires k < |Starts(code, 0)| && Inside(code, Starts(code, 0)[k], off)
    ensures AllReadable(code, Split(text, ';'))
    ensures IsTable(code, Split(text, ';'), table) ==>
              off < |table| && table[off] == if k < |ms| then ms[k] else ms[|ms| - 1]
  {
    LosslessDecoding(ms, entries);
    MappingsReadable(code, Split(text, ';'), ms);
    if IsTable(code, Split(text, ';'), table) {
      TableEntry(code, Split(text, ';'), ms, table, k, off);
    }
  }
}
