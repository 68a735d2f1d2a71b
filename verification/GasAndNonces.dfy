/** What a broadcast says about gas and nonces, over every run in which calls nest. */
module GasAndNonces {
  import opened Basics
  import opened CallFrames
  import opened Journals
  import opened Exactness
  import opened Nesting

  // ----- gas -----

  /** The gas of a frame's own call plus that of its direct calls that opened no frame. */
  function AttributedGas(j: Journal, id: nat): U64
    requires id < |j.ownGas| && id < |j.leafGas|
  {
    Plus(j.ownGas[id], j.leafGas[id])
  }

  ghost predicate GasKept(s: State, j: Journal) {
    && |j.ownGas| == |j.leafGas| == |j.births| && |j.live| == |s.stack|
    && forall i :: 0 <= i < |j.live| ==> j.live[i] < |j.births| && s.stack[i].gasUsed == AttributedGas(j, j.live[i])
  }

  ghost predicate GasReported(s: State, j: Journal) {
    var ids := ReportedIds(j.births, j.closed);
    && |j.ownGas| == |j.leafGas| == |j.births| && |s.broadcasts| == |ids|
    && forall k :: 0 <= k < |ids| ==> s.broadcasts[k].gasUsed == AttributedGas(j, ids[k])
  }

  ghost predicate GasRight(s: State, j: Journal) {
    GasKept(s, j) && GasReported(s, j)
  }

  lemma OpenGas(s: State, j: Journal, f: Frame, s': State)
    requires Accounted(j) && GasRight(s, j)
    requires s'.stack == s.stack + [f] && f.gasUsed == 0 && s'.broadcasts == s.broadcasts
    ensures GasRight(s', Open(j, s', f.depth, f.ctx))
  {
    var j' := Open(j, s', f.depth, f.ctx);
    ClosedKnown(j);
    ReportedIdsGrow(j.births, BirthOf(j, s', f.depth, f.ctx), j.closed);
    assert forall id :: 0 <= id < |j.births| ==> AttributedGas(j', id) == AttributedGas(j, id);
  }

  lemma ChargeAttributed(j: Journal, top: nat, g: U64)
    requires |j.ownGas| == |j.leafGas| && top < |j.ownGas| && j.brackets != []
    requires LastBracket(j).frame == Some(top) || (LastBracket(j).frame.None? && LastBracket(j).caller == Some(top))
    ensures |Charge(j, g).ownGas| == |Charge(j, g).leafGas| == |j.ownGas|
    ensures AttributedGas(Charge(j, g), top) == Plus(AttributedGas(j, top), g)
    ensures forall id :: 0 <= id < |j.ownGas| && id != top ==> AttributedGas(Charge(j, g), id) == AttributedGas(j, id)
  {
    PlusAssoc(j.ownGas[top], j.leafGas[top], g);
  }

  /** The journal charges the gas of a call that is left to the frame on top, and to no other. */
  lemma SpendGas(s: State, j: Journal, g: U64)
    requires Accounted(j) && Bracketed(s, j) && GasRight(s, j) && s.stack != [] && j.brackets != []
    ensures GasRight(Spend(s, g), Charge(j, g))
  {
    var n := |s.stack|;
    var top := j.live[n - 1];
    ChargeAttributed(j, top, g);
    forall i | 0 <= i < n - 1 ensures j.live[i] != top { LiveDistinct(j, i, n - 1); }
    var ids := ReportedIds(j.births, j.closed);
    forall k | 0 <= k < |ids| ensures ids[k] != top { ReportNotLive(j, k, n - 1); }
  }

  lemma PopGasKept(cfg: Config, s: State, j: Journal, s': State)
    requires GasKept(s, j) && s.stack != [] && Pop(cfg, s) == Some(s')
    ensures GasKept(s', CloseTop(j))
  {
    assert forall i :: 0 <= i < |s'.stack| ==> s'.stack[i].gasUsed == s.stack[i].gasUsed;
    assert forall i :: 0 <= i < |s'.stack| ==> CloseTop(j).live[i] == j.live[i];
  }

  lemma PopGasReported(cfg: Config, s: State, j: Journal, s': State)
    requires Aligned(s, j) && GasRight(s, j) && s.stack != [] && Pop(cfg, s) == Some(s')
    ensures GasReported(s', CloseTop(j))
  {
    var n := |s.stack|;
    var id := j.live[n - 1];
    var closed := j.closed + [id];
    assert closed[..|closed| - 1] == j.closed;
    assert RecordOf(s.stack[n - 1], j.births[id]);
    if n > 1 {
      assert Link(s, j, n - 1);
      EmittedMatches(cfg, s.stack[n - 2], j.live[n - 2], s.stack[n - 1], j.births[id],
                     Emitted(cfg, s.stack[n - 2], s.stack[n - 1]).value);
    }
  }

  lemma OpcodeGas(cfg: Config, c: Snap, e: Event, c': Snap)
    requires Accounted(c.j) && Bracketed(c.s, c.j) && GasRight(c.s, c.j)
    requires e.Opcode? && Legal(c, e) && Advance(cfg, c, e) == Some(c')
    ensures GasRight(c'.s, c'.j)
  {
    LegalOpcode(cfg, c, e, c');
    if Opening(c.j) {
      OpenGas(c.s, c.j, Tick(NewFrame(c.s, e.depth, e.pc, e.op, e.scope), e.pc, e.op, e.salt), c'.s);
    }
  }

  lemma ExitGas(cfg: Config, c: Snap, e: Event, c': Snap)
    requires Exact(cfg, c) && Bracketed(c.s, c.j) && GasRight(c.s, c.j)
    requires e.Exit? && Legal(c, e) && Advance(cfg, c, e) == Some(c')
    ensures GasRight(c'.s, c'.j)
  {
    LegalExit(cfg, c, e, c');
    var s1, j1 := Spend(c.s, e.gasUsed), Charge(c.j, e.gasUsed);
    SpendGas(c.s, c.j, e.gasUsed);
    if !Opening(c.j) {
      TopChange(cfg, c.s, c.j, s1, j1);
      PopGasKept(cfg, s1, j1, c'.s);
      PopGasReported(cfg, s1, j1, c'.s);
    }
  }

  lemma QuietGas(cfg: Config, c: Snap, e: Event, c': Snap)
    requires GasRight(c.s, c.j) && !e.Opcode? && !e.Exit? && Advance(cfg, c, e) == Some(c')
    ensures GasRight(c'.s, c'.j)
  {
    QuietStep(cfg, c, e, c');
    assert forall i :: 0 <= i < |c.s.stack| ==> c'.s.stack[i].gasUsed == c.s.stack[i].gasUsed;
  }

  lemma StepGas(cfg: Config, c: Snap, e: Event, c': Snap)
    requires Exact(cfg, c) && Bracketed(c.s, c.j) && GasRight(c.s, c.j)
    requires Legal(c, e) && Advance(cfg, c, e) == Some(c')
    ensures GasRight(c'.s, c'.j)
  {
    match e
    case Opcode(_, _, _, _, _) => OpcodeGas(cfg, c, e, c');
    case Exit(_, _) => ExitGas(cfg, c, e, c');
    case _ => QuietGas(cfg, c, e, c');
  }

  // ----- nonces -----

  /** While a call is being made its caller and the opcode of the frame making it stay what they were. */
  ghost predicate Calling(cfg: Config, s: State, j: Journal) {
    && (forall i :: 0 <= i < |s.stack| ==> s.stack[i].ctx.self != VM_ADDR)
    && (j.pending.Some? ==> !Opening(j))
    && (j.pending.Some? && s.stack != [] ==>
          && j.pending.value.caller == Top(s).ctx.self
          && j.pending.value.from == CallerOf(cfg, s, j.pending.value.caller).0)
    && (Opening(j) && s.stack != [] && LastBracket(j).to != VM_ADDR && LastBracket(j).to != CONSOLE_ADDR ==>
          Entered(s, LastBracket(j)))
  }

  /** Bracket `b` was entered by the top frame; a broadcast CALL was counted, by the sender it goes out from. */
  predicate Entered(s: State, b: Bracket)
    requires s.stack != []
  {
    && b.typ == Top(s).lastOp
    && ((b.typ == CALL || b.typ == CREATE) && Top(s).prank.Some? ==> b.from == SenderOf(Top(s)))
    && (b.typ == CALL && Bumps(Top(s), b.to) ==> b.postNonce == Plus(b.preNonce, 1))
    && (b.typ == CREATE ==> b.postNonce == b.preNonce)
  }

  /** The account that a frame opened by CALL or CREATE under prank `b.prank` is sent from. */
  function SenderAt(births: seq<Birth>, b: Birth): Option<Address> {
    if b.prank.Some? && b.prank.value.sender.Some? then b.prank.value.sender
    else if b.parent.Some? && b.parent.value < |births| then Some(births[b.parent.value].scope.self)
    else None
  }

  /**
   A frame opened by CALL or CREATE under a broadcast has the sender of the prank, or the frame below, as
   its caller, and saw the nonce of that account one past what it was before the call.
   */
  ghost predicate Counted(births: seq<Birth>) {
    forall b :: 0 <= b < |births| && Reportable(births[b]) && births[b].op != CREATE2 ==>
                  && births[b].preNonce == Minus1(births[b].callerNonce)
                  && SenderAt(births, births[b]) == Some(births[b].scope.caller)
  }

  lemma EnterCalling(cfg: Config, c: Snap, e: Event, c': Snap)
    requires Calling(cfg, c.s, c.j) && e.Enter? && Legal(c, e) && Advance(cfg, c, e) == Some(c')
    ensures Calling(cfg, c'.s, c'.j) && c'.j.births == c.j.births
  {
  }

  /** The frame that a CALL or CREATE under a broadcast opens. */
  lemma BirthCounted(cfg: Config, c: Snap, e: Event, b: Birth)
    requires Aligned(c.s, c.j) && Calling(cfg, c.s, c.j) && c.s.stack != []
    requires Opening(c.j) && e.Opcode? && Starts(c.s, LastBracket(c.j), e.scope)
    requires b.parent == LastLive(c.j) && b.op == Top(c.s).lastOp && b.prank == Top(c.s).prank && b.scope == e.scope
    requires b.callerNonce == NonceOf(c.s.nonces, e.scope.caller) && b.preNonce == LastBracket(c.j).preNonce
    requires Reportable(b) && b.op != CREATE2
    ensures b.preNonce == Minus1(b.callerNonce) && SenderAt(c.j.births, b) == Some(b.scope.caller)
  {
    var n := |c.s.stack|;
    assert RecordOf(c.s.stack[n - 1], c.j.births[c.j.live[n - 1]]);
    assert Entered(c.s, LastBracket(c.j));
  }

  lemma OpenCounted(cfg: Config, c: Snap, e: Event, c': Snap)
    requires Aligned(c.s, c.j) && Bracketed(c.s, c.j) && Calling(cfg, c.s, c.j) && Counted(c.j.births)
    requires e.Opcode? && Opening(c.j) && Legal(c, e) && Advance(cfg, c, e) == Some(c')
    ensures Counted(c'.j.births)
  {
    var b := OpenedBirth(cfg, c, e, c');
    if Reportable(b) && b.op != CREATE2 {
      BirthCounted(cfg, c, e, b);
    }
    CountedGrows(c.j.births, b);
  }

  lemma CountedGrows(births: seq<Birth>, b: Birth)
    requires Counted(births)
    requires Reportable(b) && b.op != CREATE2 ==>
               b.preNonce == Minus1(b.callerNonce) && SenderAt(births, b) == Some(b.scope.caller)
    ensures Counted(births + [b])
  {
    forall a | 0 <= a < |births| && SenderAt(births, births[a]).Some?
      ensures SenderAt(births + [b], births[a]) == SenderAt(births, births[a])
    {
    }
  }

  lemma OpcodeCalling(cfg: Config, c: Snap, e: Event, c': Snap)
    requires Bracketed(c.s, c.j) && Calling(cfg, c.s, c.j)
    requires e.Opcode? && Legal(c, e) && Advance(cfg, c, e) == Some(c')
    ensures Calling(cfg, c'.s, c'.j)
  {
    LegalOpcode(cfg, c, e, c');
    OpcodeBracketed(cfg, c, e, c');
  }

  lemma ExitCalling(cfg: Config, c: Snap, e: Event, c': Snap)
    requires Bracketed(c.s, c.j) && Calling(cfg, c.s, c.j) && e.Exit? && Legal(c, e) && Advance(cfg, c, e) == Some(c')
    ensures Calling(cfg, c'.s, c'.j) && c'.j.births == c.j.births
  {
    LegalExit(cfg, c, e, c');
    ExitBracketed(cfg, c, e, c');
    assert forall i :: 0 <= i < |c'.s.stack| ==> c'.s.stack[i].ctx == c.s.stack[i].ctx;
  }

  lemma QuietCalling(cfg: Config, c: Snap, e: Event, c': Snap)
    requires Bracketed(c.s, c.j) && Calling(cfg, c.s, c.j) && !e.Enter? && !e.Opcode? && !e.Exit?
    requires Legal(c, e) && Advance(cfg, c, e) == Some(c')
    ensures Calling(cfg, c'.s, c'.j) && c'.j.births == c.j.births
  {
    QuietStep(cfg, c, e, c');
  }

  lemma StepCalling(cfg: Config, c: Snap, e: Event, c': Snap)
    requires Aligned(c.s, c.j) && Bracketed(c.s, c.j) && Calling(cfg, c.s, c.j) && Counted(c.j.births)
    requires Legal(c, e) && Advance(cfg, c, e) == Some(c')
    ensures Calling(cfg, c'.s, c'.j) && Counted(c'.j.births)
  {
    match e
    case Enter(_, _, _, _) => EnterCalling(cfg, c, e, c');
    case Opcode(_, _, _, _, _) =>
      OpcodeCalling(cfg, c, e, c');
      if Opening(c.j) { OpenCounted(cfg, c, e, c'); } else { LegalOpcode(cfg, c, e, c'); }
    case Exit(_, _) => ExitCalling(cfg, c, e, c');
    case _ => QuietCalling(cfg, c, e, c');
  }

  // ----- runs -----

  /** Everything that holds along a legal run. */
  ghost predicate Sound(cfg: Config, c: Snap) {
    && Exact(cfg, c) && Bracketed(c.s, c.j) && GasRight(c.s, c.j)
    && Calling(cfg, c.s, c.j) && Counted(c.j.births)
  }

  lemma StepSound(cfg: Config, c: Snap, e: Event, c': Snap)
    requires Sound(cfg, c) && Legal(c, e) && Advance(cfg, c, e) == Some(c')
    ensures Sound(cfg, c')
  {
    StepExact(cfg, c, e, c');
    StepBracketed(cfg, c, e, c');
    StepGas(cfg, c, e, c');
    StepCalling(cfg, c, e, c');
  }

  lemma {:induction false} ExecSound(cfg: Config, c: Snap, es: seq<Event>, c': Snap)
    requires Sound(cfg, c) && LegalRun(cfg, c, es) && Exec(cfg, c, es) == Some(c')
    ensures Sound(cfg, c')
    decreases |es|
  {
    if es != [] {
      var c1 := Advance(cfg, c, es[0]).value;
      StepSound(cfg, c, es[0], c1);
      ExecSound(cfg, c1, es[1..], c');
    }
  }

  lemma FreshSound(cfg: Config, s: State)
    requires Fresh(s)
    ensures Sound(cfg, Snap(s, EMPTY_JOURNAL))
  {
  }

  /**
   Gas attribution. Over every legal run the gas of the k-th broadcast is the gas reported when that
   frame's own call was left plus that of its direct calls that opened no frame, modulo 2^64; what its
   descendants with frames of their own used is not in it.
   */
  lemma GasAttribution(cfg: Config, s: State, es: seq<Event>, c: Snap)
    requires Fresh(s) && LegalRun(cfg, Snap(s, EMPTY_JOURNAL), es) && Exec(cfg, Snap(s, EMPTY_JOURNAL), es) == Some(c)
    ensures var ids := ReportedIds(c.j.births, c.j.closed);
            && |c.j.ownGas| == |c.j.leafGas| == |c.j.births| && |c.s.broadcasts| == |ids|
            && forall k :: 0 <= k < |ids| ==>
                 c.s.broadcasts[k].gasUsed == (c.j.ownGas[ids[k]] + c.j.leafGas[ids[k]]) % TWO_64
  {
    FreshSound(cfg, s);
    ExecSound(cfg, Snap(s, EMPTY_JOURNAL), es, c);
  }

  lemma RunReported(cfg: Config, s: State, es: seq<Event>, c: Snap)
    requires Fresh(s) && LegalRun(cfg, Snap(s, EMPTY_JOURNAL), es) && Exec(cfg, Snap(s, EMPTY_JOURNAL), es) == Some(c)
    ensures Reported(cfg, c.s, c.j) && Counted(c.j.births)
  {
    FreshSound(cfg, s);
    ExecSound(cfg, Snap(s, EMPTY_JOURNAL), es, c);
  }

  lemma NoncesReported(cfg: Config, s: State, j: Journal)
    requires Reported(cfg, s, j) && Counted(j.births)
    ensures var ids := ReportedIds(j.births, j.closed);
            forall k :: 0 <= k < |ids| && s.broadcasts[k].typ != BroadcastCreate2 ==>
              && SenderAt(j.births, j.births[ids[k]]) == Some(s.broadcasts[k].from)
              && s.broadcasts[k].nonce == j.births[ids[k]].preNonce
  {
    var ids := ReportedIds(j.births, j.closed);
    assert forall k :: 0 <= k < |ids| ==> Describes(cfg, s.broadcasts[k], j.births[ids[k]]);
  }

  /**
   Nonce fidelity. Over every legal run a CALL or CREATE broadcast is from the sender of the prank or, if it
   has none, from the frame that made the call, and its nonce is the one that account had before the call
   was entered.
   */
  lemma NonceFidelity(cfg: Config, s: State, es: seq<Event>, c: Snap)
    requires Fresh(s) && LegalRun(cfg, Snap(s, EMPTY_JOURNAL), es) && Exec(cfg, Snap(s, EMPTY_JOURNAL), es) == Some(c)
    ensures var ids := ReportedIds(c.j.births, c.j.closed);
            && |c.s.broadcasts| == |ids|
            && forall k :: 0 <= k < |ids| && c.s.broadcasts[k].typ != BroadcastCreate2 ==>
                 && SenderAt(c.j.births, c.j.births[ids[k]]) == Some(c.s.broadcasts[k].from)
                 && c.s.broadcasts[k].nonce == c.j.births[ids[k]].preNonce
  {
    RunReported(cfg, s, es, c);
    NoncesReported(cfg, c.s, c.j);
  }
}
