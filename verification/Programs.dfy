/**
 Source maps of assembled programs. A program is a list of instructions, some of which push data that follows
 them in the bytecode; the table of its bytecode gives every byte of the k-th instruction the k-th mapping.
 */
module Programs {
  import opened Basics
  import opened SourceMaps
  import opened Strings

  datatype AnyInstruction = Plain(op: Byte) | Push(data: seq<Byte>)

  const PUSH0: Byte := 0x5f
  const PUSH1: Byte := 0x60
  const PUSH32: Byte := 0x7f

  predicate IsInstruction(i: AnyInstruction) {
    match i
    case Plain(op) => op < PUSH1 || op > PUSH32
    case Push(data) => 1 <= |data| <= 32
  }

  /** PUSH1 to PUSH32 take as many bytes of data; any other opcode stands alone. */
  type Instruction = i: AnyInstruction | IsInstruction(i) witness Plain(0)

  datatype Program = End | Then(first: Instruction, others: Program)

  function Encoding(i: Instruction): seq<Byte> {
    match i
    case Plain(op) => [op]
    case Push(data) => [PUSH0 + |data|] + data
  }

  function Assemble(p: Program): seq<Byte> {
    match p
    case End => []
    case Then(first, others) => Encoding(first) + Assemble(others)
  }

  function Size(i: Instruction): (n: nat)
    ensures n > 0
  {
    match i
    case Plain(_) => 1
    case Push(data) => 1 + |data|
  }

  function TotalSize(p: Program): nat {
    match p
    case End => 0
    case Then(first, others) => Size(first) + TotalSize(others)
  }

  function Length(p: Program): nat {
    match p
    case End => 0
    case Then(_, others) => 1 + Length(others)
  }

  /** Where the k-th instruction starts in the bytecode, */
  function Offset(p: Program, k: nat): nat
    requires k < Length(p)
  {
    if k == 0 then 0 else Size(p.first) + Offset(p.others, k - 1)
  }

  /** and how many bytes it takes. */
  function SizeAt(p: Program, k: nat): nat
    requires k < Length(p)
  {
    if k == 0 then Size(p.first) else SizeAt(p.others, k - 1)
  }

  lemma FirstByte(i: Instruction)
    ensures |Encoding(i)| == Size(i) && InstrLen(Encoding(i)[0]) == Size(i)
  {
  }

  lemma {:induction false} AssembledSize(p: Program)
    ensures |Assemble(p)| == TotalSize(p)
  {
    match p
    case End =>
    case Then(first, others) =>
      FirstByte(first);
      AssembledSize(others);
  }

  /** The instructions of the program are where a sweep from `at` on finds them. */
  predicate Laid(code: seq<Byte>, at: nat, p: Program)
    decreases p
  {
    match p
    case End => true
    case Then(first, others) => at < |code| && InstrLen(code[at]) == Size(first) && Laid(code, at + Size(first), others)
  }

  lemma Regrouped(before: seq<Byte>, first: seq<Byte>, others: seq<Byte>, rest: seq<Byte>)
    requires first != []
    ensures before + (first + others) + rest == (before + first) + others + rest
    ensures (before + (first + others) + rest)[|before|] == first[0]
  {
  }

  lemma {:induction false} AssembledIsLaid(code: seq<Byte>, before: seq<Byte>, p: Program, rest: seq<Byte>)
    requires code == before + Assemble(p) + rest
    ensures Laid(code, |before|, p)
    decreases p
  {
    match p
    case End =>
    case Then(first, others) =>
      FirstByte(first);
      Regrouped(before, Encoding(first), Assemble(others), rest);
      AssembledIsLaid(code, before + Encoding(first), others, rest);
  }

  /** Where a sweep from `at` on finds its k-th instruction. */
  function StartOf(code: seq<Byte>, at: nat, k: nat): nat
    decreases k
  {
    if k == 0 || at >= |code| then at else StartOf(code, at + InstrLen(code[at]), k - 1)
  }

  lemma {:induction false} StartsIndexed(code: seq<Byte>, at: nat, k: nat)
    requires StartOf(code, at, k) < |code|
    ensures k < |Starts(code, at)| && Starts(code, at)[k] == StartOf(code, at, k)
    decreases k
  {
    if k > 0 && at < |code| {
      StartsIndexed(code, at + InstrLen(code[at]), k - 1);
    }
  }

  lemma {:induction false} LaidAt(code: seq<Byte>, at: nat, p: Program, k: nat)
    requires Laid(code, at, p) && k < Length(p)
    ensures at + Offset(p, k) < |code| && InstrLen(code[at + Offset(p, k)]) == SizeAt(p, k)
    decreases p
  {
    if k > 0 {
      var next := at + Size(p.first);
      LaidAt(code, next, p.others, k - 1);
      assert at + Offset(p, k) == next + Offset(p.others, k - 1);
    }
  }

  lemma {:induction false} StartsAt(code: seq<Byte>, at: nat, p: Program, k: nat)
    requires Laid(code, at, p) && k < Length(p)
    ensures StartOf(code, at, k) == at + Offset(p, k)
    decreases p
  {
    if k > 0 {
      StartsAt(code, at + Size(p.first), p.others, k - 1);
    }
  }

  lemma {:induction false} SweepsPast(code: seq<Byte>, at: nat, p: Program)
    requires Laid(code, at, p)
    ensures SweepEnd(code, at) == SweepEnd(code, at + TotalSize(p))
    decreases p
  {
    match p
    case End =>
    case Then(first, others) => SweepsPast(code, at + Size(first), others);
  }

  lemma ProgramIsLaid(p: Program, rest: seq<Byte>)
    ensures Laid(Assemble(p) + rest, 0, p)
  {
    assert [] + Assemble(p) + rest == Assemble(p) + rest;
    AssembledIsLaid(Assemble(p) + rest, [], p, rest);
  }

  /**
   For every program, whatever follows it in the bytecode, and for every way to write a non-empty sequence of
   mappings: a table can be made, and it gives each byte of the k-th instruction, its data included, the k-th
   mapping, or the last one once they run out.
   */
  lemma TableOfProgram(p: Program, rest: seq<Byte>, ms: seq<InstrMapping>, entries: seq<seq<string>>, text: string,
                       table: seq<InstrMapping>, k: nat, b: nat)
    requires k < Length(p) && b < SizeAt(p, k)
    requires ms != [] && EncodesAll(ZERO, ms, entries)
    requires (forall i :: 0 <= i < |entries| ==> |entries[i]| > 0) && text == Join(Texts(entries), ';')
    ensures AllReadable(Assemble(p) + rest, Split(text, ';'))
    ensures IsTable(Assemble(p) + rest, Split(text, ';'), table) ==>
              var off := Offset(p, k) + b;
              off < |table| && table[off] == if k < |ms| then ms[k] else ms[|ms| - 1]
  {
    ProgramIsLaid(p, rest);
    LaidAt(Assemble(p) + rest, 0, p, k);
    StartsAt(Assemble(p) + rest, 0, p, k);
    StartsIndexed(Assemble(p) + rest, 0, k);
    TableOfMappings(Assemble(p) + rest, ms, entries, text, table, k, Offset(p, k) + b);
  }

  lemma CutPush(code: seq<Byte>, at: nat, n: nat)
    requires at < |code| < at + 1 + n && 1 <= n <= 32 && code[at] == PUSH0 + n
    ensures SweepEnd(code, at) == at + 1 + n
  {
    assert SweepEnd(code, at) == SweepEnd(code, at + 1 + n);
  }

  /** The table of a program is as long as its bytecode, */
  lemma TableLength(p: Program, entries: seq<string>, table: seq<InstrMapping>)
    requires IsTable(Assemble(p), entries, table)
    ensures |table| == |Assemble(p)|
  {
    assert Assemble(p) + [] == Assemble(p);
    ProgramIsLaid(p, []);
    AssembledSize(p);
    SweepsPast(Assemble(p), 0, p);
  }

  /** or as it would be with the data that a last push is short of. */
  lemma CutTableLength(p: Program, n: nat, data: seq<Byte>, entries: seq<string>, table: seq<InstrMapping>)
    requires |data| < n <= 32 && IsTable(Assemble(p) + ([PUSH0 + n] + data), entries, table)
    ensures |table| == |Assemble(p)| + 1 + n
  {
    var code := Assemble(p) + ([PUSH0 + n] + data);
    ProgramIsLaid(p, [PUSH0 + n] + data);
    AssembledSize(p);
    SweepsPast(code, 0, p);
    CutPush(code, |Assemble(p)|, n);
  }
}
