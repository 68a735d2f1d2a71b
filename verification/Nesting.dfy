/**
 Runs in which the EVM calls the hooks the way it enters and leaves calls. `Legal` is all that is taken of
 the EVM: calls are entered by the opcodes that make calls and are left like brackets, the depth of an
 opcode is the number of open calls, the caller override is asked for just before a call is entered and is
 what the callee sees, and the cheatcode and console precompiles run no bytecode.
 */
module Nesting {
  import opened Basics
  import opened CallFrames
  import opened Journals

  predicate IsTransaction(typ: Byte) {
    typ == CALL || typ == CREATE || typ == CREATE2
  }

  const CALLCODE: Byte := 0xf2
  const SELFDESTRUCT: Byte := 0xff

  /** The opcodes that the EVM reports as entering a call. */
  predicate MakesCall(op: Byte) {
    IsTransaction(op) || op == CALLCODE || op == DELEGATECALL || op == STATICCALL || op == SELFDESTRUCT
  }

  function LastBracket(j: Journal): Bracket
    requires j.brackets != []
  {
    j.brackets[|j.brackets| - 1]
  }

  /**
   The call of bracket `b` runs its first opcode in `scope`. Nothing changed the nonce of the caller since
   the call was entered, except that the EVM itself counts a CREATE.
   */
  predicate Starts(s: State, b: Bracket, scope: Scope) {
    && b.to != VM_ADDR && b.to != CONSOLE_ADDR && scope.self != VM_ADDR
    && (IsTransaction(b.typ) ==> scope.caller == b.from)
    && (b.typ == CALL ==> NonceOf(s.nonces, b.from) == b.postNonce)
    && (b.typ == CREATE ==> NonceOf(s.nonces, b.from) == Plus(b.postNonce, 1))
  }

  predicate Legal(c: Snap, e: Event) {
    var s, j := c.s, c.j;
    match e
    case Call(caller) =>
      j.pending.None? && !Opening(j) && (s.stack != [] ==> caller == Top(s).ctx.self)
    case Enter(depth, typ, from, to) =>
      && !Opening(j) && depth == |j.brackets|
      && (j.pending.Some? ==> from == j.pending.value.from)
      && (IsTransaction(typ) ==> j.pending.Some?)
      && (s.stack != [] ==> typ == Top(s).lastOp && MakesCall(typ))
    case Opcode(_, _, depth, scope, _) =>
      && j.pending.None? && j.brackets != [] && depth == |j.brackets|
      && (Opening(j) ==> Starts(s, LastBracket(j), scope))
    case Exit(depth, _) =>
      j.pending.None? && j.brackets != [] && depth == |j.brackets| - 1
    case StartPrank(_, _, _, _) => j.pending.None? && Opening(j) && LastBracket(j).to == VM_ADDR
    case EndPrank(_) => j.pending.None? && Opening(j) && LastBracket(j).to == VM_ADDR
    case SetOrigin(_) => j.pending.None? && j.brackets == []
    case SetNonce(_, _) => j.pending.None?
    case Allow(_) => j.pending.None?
  }

  /** Every step of the run is legal; the run does not panic. */
  ghost predicate LegalRun(cfg: Config, c: Snap, es: seq<Event>)
    decreases |es|
  {
    es != [] ==>
      && Legal(c, es[0]) && Advance(cfg, c, es[0]).Some?
      && LegalRun(cfg, Advance(cfg, c, es[0]).value, es[1..])
  }

  /** `es` is a legal run from `c` to `c'`. */
  ghost predicate Leads(cfg: Config, c: Snap, es: seq<Event>, c': Snap) {
    LegalRun(cfg, c, es) && Exec(cfg, c, es) == Some(c')
  }

  lemma StepLeads(cfg: Config, c: Snap, e: Event, c1: Snap, es: seq<Event>, c': Snap)
    requires Legal(c, e) && Advance(cfg, c, e) == Some(c1) && Leads(cfg, c1, es, c')
    ensures Leads(cfg, c, [e] + es, c')
  {
    assert ([e] + es)[1..] == es;
  }

  lemma ThreeLead(cfg: Config, c: Snap, e1: Event, c1: Snap, e2: Event, c2: Snap, e3: Event, c3: Snap)
    requires Legal(c, e1) && Advance(cfg, c, e1) == Some(c1)
    requires Legal(c1, e2) && Advance(cfg, c1, e2) == Some(c2)
    requires Legal(c2, e3) && Advance(cfg, c2, e3) == Some(c3)
    ensures Leads(cfg, c, [e1, e2, e3], c3)
  {
    StepLeads(cfg, c2, e3, c3, [], c3);
    StepLeads(cfg, c1, e2, c2, [e3] + [], c3);
    StepLeads(cfg, c, e1, c1, [e2] + ([e3] + []), c3);
    assert [e1] + ([e2] + ([e3] + [])) == [e1, e2, e3];
  }

  lemma {:induction false} LeadsOn(cfg: Config, c: Snap, es: seq<Event>, c1: Snap, rest: seq<Event>, c': Snap)
    requires Leads(cfg, c, es, c1) && Leads(cfg, c1, rest, c')
    ensures Leads(cfg, c, es + rest, c')
    decreases |es|
  {
    if es == [] {
      assert es + rest == rest;
    } else {
      var next := Advance(cfg, c, es[0]).value;
      LeadsOn(cfg, next, es[1..], c1, rest, c');
      StepLeads(cfg, c, es[0], next, es[1..] + rest, c');
      assert es + rest == [es[0]] + (es[1..] + rest);
    }
  }

  // ----- brackets and frames -----

  /** The frames on the stack are the calls that opened one; at most the innermost call has not, yet. */
  ghost predicate Bracketed(s: State, j: Journal) {
    var n := |s.stack|;
    && |j.live| == n
    && |j.brackets| == (if Opening(j) then n + 1 else n)
    && (forall i :: 0 <= i < n ==> j.brackets[i].frame == Some(j.live[i]))
    && (forall i :: 0 <= i < n ==> s.stack[i].depth == i + 1)
    && (forall i :: 0 <= i < n ==> j.live[i] < |j.births| && j.births[j.live[i]].depth == i + 1)
    && (Opening(j) ==> LastBracket(j).caller == LastLive(j))
  }

  lemma LegalOpcode(cfg: Config, c: Snap, e: Event, c': Snap)
    requires Bracketed(c.s, c.j)
    requires e.Opcode? && Legal(c, e) && Advance(cfg, c, e) == Some(c')
    ensures c'.s == Settle(c.s, e.pc, e.op, e.depth, e.scope, e.salt)
    ensures Opening(c.j) ==>
              && c'.j == Open(c.j, c'.s, e.depth, e.scope)
              && c'.s.stack == c.s.stack + [Tick(NewFrame(c.s, e.depth, e.pc, e.op, e.scope), e.pc, e.op, e.salt)]
    ensures !Opening(c.j) ==>
              && c'.j == c.j && c.s.stack != []
              && c'.s.stack == c.s.stack[|c.s.stack| - 1 := Tick(Top(c.s), e.pc, e.op, e.salt)]
  {
    assert Unwind(cfg, c.s, e.depth) == Some(c.s);
    assert Close(c.j, e.depth) == c.j;
  }

  /** What is recorded about a frame when the call being made opens it. */
  lemma OpenedBirth(cfg: Config, c: Snap, e: Event, c': Snap) returns (b: Birth)
    requires Bracketed(c.s, c.j)
    requires e.Opcode? && Opening(c.j) && Legal(c, e) && Advance(cfg, c, e) == Some(c')
    ensures c'.j.births == c.j.births + [b] && b.parent == LastLive(c.j)
    ensures b.scope == e.scope && b.callerNonce == NonceOf(c.s.nonces, e.scope.caller) && b.origin == c.s.origin
    ensures b.preNonce == LastBracket(c.j).preNonce && b.before == LastBracket(c.j).before
    ensures c.s.stack != [] ==> b.op == Top(c.s).lastOp && b.prank == Top(c.s).prank && b.salt == Top(c.s).lastSalt
    ensures c.s.stack == [] ==> b.prank.None?
  {
    LegalOpcode(cfg, c, e, c');
    b := BirthOf(c.j, c'.s, e.depth, e.scope);
    assert c.s.stack != [] ==> c'.s.stack[|c'.s.stack| - 2] == Top(c.s);
  }

  lemma UnwindOnce(cfg: Config, s: State, depth: int, s': State)
    requires s.stack != [] && Top(s).depth == depth + 1 && Unwind(cfg, s, depth) == Some(s')
    requires |s.stack| > 1 ==> s.stack[|s.stack| - 2].depth <= depth
    ensures Pop(cfg, s) == Some(s')
  {
    var s1 := Pop(cfg, s).value;
    assert s1.stack != [] ==> Top(s1).depth == s.stack[|s.stack| - 2].depth;
  }

  lemma CloseOnce(j: Journal, depth: int)
    requires LiveDepth(j) == Some(depth + 1)
    requires LiveDepth(CloseTop(j)).Some? ==> LiveDepth(CloseTop(j)).value <= depth
    ensures Close(j, depth) == CloseTop(j)
  {
  }

  lemma LegalExit(cfg: Config, c: Snap, e: Event, c': Snap)
    requires Bracketed(c.s, c.j)
    requires e.Exit? && Legal(c, e) && Advance(cfg, c, e) == Some(c')
    ensures c.s.stack != []
    ensures Opening(c.j) ==> c'.s == Spend(c.s, e.gasUsed) && c'.j == Charge(c.j, e.gasUsed)
    ensures !Opening(c.j) ==>
              Pop(cfg, Spend(c.s, e.gasUsed)) == Some(c'.s) && c'.j == CloseTop(Charge(c.j, e.gasUsed))
  {
    if !Opening(c.j) {
      UnwindOnce(cfg, Spend(c.s, e.gasUsed), e.depth, c'.s);
      CloseOnce(Charge(c.j, e.gasUsed), e.depth);
    }
  }

  /** A call that opened no frame can be left, and only its gas is charged. */
  lemma LeafLeaves(cfg: Config, c: Snap, g: U64)
    requires Bracketed(c.s, c.j) && Opening(c.j) && c.j.pending.None? && c.s.stack != []
    ensures Legal(c, Exit(|c.s.stack|, g))
    ensures Advance(cfg, c, Exit(|c.s.stack|, g)) == Some(Snap(Spend(c.s, g), Charge(c.j, g)))
  {
    assert Unwind(cfg, Spend(c.s, g), |c.s.stack|) == Some(Spend(c.s, g));
    assert Close(Charge(c.j, g), |c.s.stack|) == Charge(c.j, g);
  }

  lemma OpcodeBracketed(cfg: Config, c: Snap, e: Event, c': Snap)
    requires Bracketed(c.s, c.j) && e.Opcode? && Legal(c, e) && Advance(cfg, c, e) == Some(c')
    ensures Bracketed(c'.s, c'.j) && !Opening(c'.j)
  {
    LegalOpcode(cfg, c, e, c');
    if Opening(c.j) {
      assert c'.j.births[|c.j.births|].depth == e.depth;
    }
  }

  lemma ExitBracketed(cfg: Config, c: Snap, e: Event, c': Snap)
    requires Bracketed(c.s, c.j) && e.Exit? && Legal(c, e) && Advance(cfg, c, e) == Some(c')
    ensures Bracketed(c'.s, c'.j) && !Opening(c'.j)
  {
    LegalExit(cfg, c, e, c');
    var n := |c.s.stack|;
    assert !Opening(c.j) ==> forall i :: 0 <= i < n - 1 ==> c'.s.stack[i].depth == c.s.stack[i].depth;
  }

  lemma EnterBracketed(cfg: Config, c: Snap, e: Event, c': Snap)
    requires Bracketed(c.s, c.j) && e.Enter? && Legal(c, e) && Advance(cfg, c, e) == Some(c')
    ensures Bracketed(c'.s, c'.j)
  {
    assert c'.s.stack == c.s.stack;
  }

  lemma QuietBracketed(cfg: Config, c: Snap, e: Event, c': Snap)
    requires Bracketed(c.s, c.j) && !e.Opcode? && !e.Exit? && Legal(c, e) && Advance(cfg, c, e) == Some(c')
    ensures Bracketed(c'.s, c'.j)
  {
    if e.Enter? {
      EnterBracketed(cfg, c, e, c');
    } else {
      QuietStep(cfg, c, e, c');
      assert forall i :: 0 <= i < |c.s.stack| ==> c'.s.stack[i].depth == c.s.stack[i].depth;
      assert c'.j.brackets == c.j.brackets;
    }
  }

  lemma StepBracketed(cfg: Config, c: Snap, e: Event, c': Snap)
    requires Bracketed(c.s, c.j) && Legal(c, e) && Advance(cfg, c, e) == Some(c')
    ensures Bracketed(c'.s, c'.j)
  {
    match e
    case Opcode(_, _, _, _, _) => OpcodeBracketed(cfg, c, e, c');
    case Exit(_, _) => ExitBracketed(cfg, c, e, c');
    case _ => QuietBracketed(cfg, c, e, c');
  }
}
