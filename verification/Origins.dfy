/**
 Origin discipline: whenever a frame runs, tx.origin is what it was when that frame appeared, however
 pranks nest, repeat, are replaced or are stopped. It holds over a legal run exactly if no call that
 overrides tx.origin is left without having opened a frame: only popping a frame restores tx.origin.
 */
module Origins {
  import opened Basics
  import opened CallFrames
  import opened Journals
  import opened Nesting
  import opened Overrides
  import opened Scripts

  /** No call is being made. */
  predicate Idle(j: Journal) {
    j.pending.None? && !Opening(j)
  }

  /** The call being made overrode tx.origin. */
  predicate Overridden(j: Journal) {
    (j.pending.Some? && j.pending.value.overridden) || (Opening(j) && LastBracket(j).overridden)
  }

  /** Tx.origin when the frame numbered `id` appeared. */
  function BirthOrigin(j: Journal, id: nat): Address {
    if id < |j.births| then j.births[id].origin else 0
  }

  /** The frame that runs sees the tx.origin it started with. */
  predicate OriginHolds(c: Snap) {
    Idle(c.j) && c.j.live != [] ==> c.s.origin == BirthOrigin(c.j, c.j.live[|c.j.live| - 1])
  }

  /** A call that overrode tx.origin is left without having opened a frame. */
  predicate Leaks(j: Journal, e: Event) {
    e.Exit? && Opening(j) && LastBracket(j).overridden
  }

  ghost predicate Disciplined(cfg: Config, c: Snap, es: seq<Event>)
    decreases |es|
  {
    && OriginHolds(c)
    && (es != [] && Advance(cfg, c, es[0]).Some? ==> Disciplined(cfg, Advance(cfg, c, es[0]).value, es[1..]))
  }

  ghost predicate LeakFree(cfg: Config, c: Snap, es: seq<Event>)
    decreases |es|
  {
    es != [] ==>
      && !Leaks(c.j, es[0])
      && (Advance(cfg, c, es[0]).Some? ==> LeakFree(cfg, Advance(cfg, c, es[0]).value, es[1..]))
  }

  // ----- what holds along a run that has not leaked -----

  /** The prank of frame `i` gives back the tx.origin that frame started with. */
  predicate GivesBack(s: State, j: Journal, i: nat) {
    i < |s.stack| && i < |j.live| &&
    (HasOrigin(s.stack[i].prank) ==> s.stack[i].prank.value.prevOrigin == BirthOrigin(j, j.live[i]))
  }

  /** Frame `i + 1` started with the tx.origin of frame `i`, unless that has a prank that overrides it. */
  predicate Inherits(s: State, j: Journal, i: nat) {
    i + 1 < |s.stack| && i + 1 < |j.live| &&
    (!HasOrigin(s.stack[i].prank) ==> BirthOrigin(j, j.live[i + 1]) == BirthOrigin(j, j.live[i]))
  }

  ghost predicate Kept(s: State, j: Journal) {
    var n := |s.stack|;
    && |j.live| == n
    && (forall i :: 0 <= i < n ==> GivesBack(s, j, i))
    && (forall i :: 0 <= i < n - 1 ==> Inherits(s, j, i))
    && (n > 0 ==> if Overridden(j)
                  then HasOrigin(s.stack[n - 1].prank) && s.origin != BirthOrigin(j, j.live[n - 1])
                  else s.origin == BirthOrigin(j, j.live[n - 1]))
    && (n == 0 ==> !Overridden(j))
  }

  /** A cheatcode is running under an override: no frame will open, so the override will leak. */
  predicate Doomed(s: State, j: Journal) {
    && |j.live| == |s.stack| > 0
    && Opening(j) && LastBracket(j).overridden && LastBracket(j).to == VM_ADDR
    && s.origin != BirthOrigin(j, j.live[|j.live| - 1])
  }

  ghost predicate NotLeaked(s: State, j: Journal) {
    Kept(s, j) || Doomed(s, j)
  }

  // ----- steps -----

  lemma CallKept(cfg: Config, c: Snap, e: Event, c': Snap)
    requires Kept(c.s, c.j) && e.Call? && Legal(c, e) && Advance(cfg, c, e) == Some(c')
    ensures Kept(c'.s, c'.j)
  {
    forall i | 0 <= i < |c.s.stack| ensures GivesBack(c'.s, c'.j, i) { assert GivesBack(c.s, c.j, i); }
    forall i | 0 <= i < |c.s.stack| - 1 ensures Inherits(c'.s, c'.j, i) { assert Inherits(c.s, c.j, i); }
  }

  lemma EnterKept(cfg: Config, c: Snap, e: Event, c': Snap)
    requires Kept(c.s, c.j) && e.Enter? && Legal(c, e) && Advance(cfg, c, e) == Some(c')
    ensures Kept(c'.s, c'.j)
  {
    forall i | 0 <= i < |c.s.stack| ensures GivesBack(c'.s, c'.j, i) { assert GivesBack(c.s, c.j, i); }
    forall i | 0 <= i < |c.s.stack| - 1 ensures Inherits(c'.s, c'.j, i) { assert Inherits(c.s, c.j, i); }
  }

  /** A cheatcode sets or stops a prank of the frame that called it. */
  lemma CheatNotLeaked(cfg: Config, c: Snap, e: Event, c': Snap)
    requires Kept(c.s, c.j) && (e.StartPrank? || e.EndPrank?) && Legal(c, e) && Advance(cfg, c, e) == Some(c')
    ensures NotLeaked(c'.s, c'.j)
  {
    QuietStep(cfg, c, e, c');
    if !Overridden(c.j) {
      forall i | 0 <= i < |c.s.stack| ensures GivesBack(c'.s, c'.j, i) { assert GivesBack(c.s, c.j, i); }
      forall i | 0 <= i < |c.s.stack| - 1 ensures Inherits(c'.s, c'.j, i) { assert Inherits(c.s, c.j, i); }
    }
  }

  /** A frame without a prank appears, and starts with the tx.origin there is. */
  lemma PushKept(s: State, j: Journal, f: Frame, b: Birth, s': State, j': Journal)
    requires Kept(s, j) && f.prank.None? && s'.stack == s.stack + [f] && s'.origin == s.origin == b.origin
    requires j'.births == j.births + [b] && j'.live == j.live + [|j.births|] && !Overridden(j')
    requires forall i :: 0 <= i < |j.live| ==> j.live[i] < |j.births|
    ensures Kept(s', j')
  {
    var n := |s.stack|;
    forall i | 0 <= i < n + 1 ensures GivesBack(s', j', i) {
      if i < n { assert GivesBack(s, j, i); }
    }
    forall i | 0 <= i < n ensures Inherits(s', j', i) {
      if i < n - 1 { assert Inherits(s, j, i); }
    }
  }

  lemma OpenKept(cfg: Config, c: Snap, e: Event, c': Snap)
    requires Bracketed(c.s, c.j) && Kept(c.s, c.j) && e.Opcode? && Opening(c.j)
    requires Legal(c, e) && Advance(cfg, c, e) == Some(c')
    ensures Kept(c'.s, c'.j)
  {
    LegalOpcode(cfg, c, e, c');
    OpcodeBracketed(cfg, c, e, c');
    var b := OpenedBirth(cfg, c, e, c');
    PushKept(c.s, c.j, Top(c'.s), b, c'.s, c'.j);
  }

  lemma TickKept(cfg: Config, c: Snap, e: Event, c': Snap)
    requires Bracketed(c.s, c.j) && Kept(c.s, c.j) && e.Opcode? && !Opening(c.j)
    requires Legal(c, e) && Advance(cfg, c, e) == Some(c')
    ensures Kept(c'.s, c'.j)
  {
    LegalOpcode(cfg, c, e, c');
    forall i | 0 <= i < |c.s.stack| ensures GivesBack(c'.s, c'.j, i) { assert GivesBack(c.s, c.j, i); }
    forall i | 0 <= i < |c.s.stack| - 1 ensures Inherits(c'.s, c'.j, i) { assert Inherits(c.s, c.j, i); }
  }

  lemma PopKept(cfg: Config, c: Snap, e: Event, c': Snap)
    requires Bracketed(c.s, c.j) && Kept(c.s, c.j) && e.Exit? && !Opening(c.j)
    requires Legal(c, e) && Advance(cfg, c, e) == Some(c')
    ensures Kept(c'.s, c'.j)
  {
    LegalExit(cfg, c, e, c');
    ExitBracketed(cfg, c, e, c');
    var n := |c.s.stack|;
    if n > 1 {
      assert GivesBack(c.s, c.j, n - 2) && Inherits(c.s, c.j, n - 2);
    }
    forall i | 0 <= i < n - 1 ensures GivesBack(c'.s, c'.j, i) { assert GivesBack(c.s, c.j, i); }
    forall i | 0 <= i < n - 2 ensures Inherits(c'.s, c'.j, i) { assert Inherits(c.s, c.j, i); }
  }

  /** Leaving a call that opened no frame restores nothing. */
  lemma LeafExit(cfg: Config, c: Snap, e: Event, c': Snap)
    requires Bracketed(c.s, c.j) && NotLeaked(c.s, c.j) && e.Exit? && Opening(c.j)
    requires Legal(c, e) && Advance(cfg, c, e) == Some(c')
    ensures LastBracket(c.j).overridden ==> !OriginHolds(c')
    ensures !LastBracket(c.j).overridden ==> Kept(c'.s, c'.j)
  {
    LegalExit(cfg, c, e, c');
    ExitBracketed(cfg, c, e, c');
    if !LastBracket(c.j).overridden {
      SpendKept(c.s, c.j, e.gasUsed, c'.j);
    }
  }

  lemma SpendKept(s: State, j: Journal, g: U64, j': Journal)
    requires Kept(s, j) && s.stack != [] && SameFrames(j, j') && !Overridden(j) && !Overridden(j')
    ensures Kept(Spend(s, g), j')
  {
    forall i | 0 <= i < |s.stack| ensures GivesBack(Spend(s, g), j', i) { assert GivesBack(s, j, i); }
    forall i | 0 <= i < |s.stack| - 1 ensures Inherits(Spend(s, g), j', i) { assert Inherits(s, j, i); }
  }

  lemma OtherKept(cfg: Config, c: Snap, e: Event, c': Snap)
    requires Bracketed(c.s, c.j) && Kept(c.s, c.j) && (e.SetNonce? || e.SetOrigin? || e.Allow?)
    requires Legal(c, e) && Advance(cfg, c, e) == Some(c')
    ensures Kept(c'.s, c'.j)
  {
    forall i | 0 <= i < |c.s.stack| ensures GivesBack(c'.s, c'.j, i) { assert GivesBack(c.s, c.j, i); }
    forall i | 0 <= i < |c.s.stack| - 1 ensures Inherits(c'.s, c'.j, i) { assert Inherits(c.s, c.j, i); }
  }

  lemma StepNotLeaked(cfg: Config, c: Snap, e: Event, c': Snap)
    requires Bracketed(c.s, c.j) && NotLeaked(c.s, c.j)
    requires Legal(c, e) && Advance(cfg, c, e) == Some(c') && !Leaks(c.j, e)
    ensures NotLeaked(c'.s, c'.j)
  {
    if Kept(c.s, c.j) {
      match e
      case Call(_) => CallKept(cfg, c, e, c');
      case Enter(_, _, _, _) => EnterKept(cfg, c, e, c');
      case Opcode(_, _, _, _, _) =>
        if Opening(c.j) { OpenKept(cfg, c, e, c'); } else { TickKept(cfg, c, e, c'); }
      case Exit(_, _) =>
        if Opening(c.j) { LeafExit(cfg, c, e, c'); } else { PopKept(cfg, c, e, c'); }
      case StartPrank(_, _, _, _) => CheatNotLeaked(cfg, c, e, c');
      case EndPrank(_) => CheatNotLeaked(cfg, c, e, c');
      case _ => OtherKept(cfg, c, e, c');
    } else {
      DoomedStays(cfg, c, e, c');
    }
  }

  lemma DoomedStays(cfg: Config, c: Snap, e: Event, c': Snap)
    requires Bracketed(c.s, c.j) && Doomed(c.s, c.j)
    requires Legal(c, e) && Advance(cfg, c, e) == Some(c') && !Leaks(c.j, e)
    ensures Doomed(c'.s, c'.j)
  {
    QuietStep(cfg, c, e, c');
  }

  // ----- runs -----

  lemma {:induction false} DisciplinedIff(cfg: Config, c: Snap, es: seq<Event>)
    requires Bracketed(c.s, c.j) && NotLeaked(c.s, c.j) && LegalRun(cfg, c, es)
    ensures Disciplined(cfg, c, es) <==> LeakFree(cfg, c, es)
    decreases |es|
  {
    if es != [] {
      var c1 := Advance(cfg, c, es[0]).value;
      if Leaks(c.j, es[0]) {
        LeafExit(cfg, c, es[0], c1);
      } else {
        StepBracketed(cfg, c, es[0], c1);
        StepNotLeaked(cfg, c, es[0], c1);
        DisciplinedIff(cfg, c1, es[1..]);
      }
    }
  }

  /** Origin discipline, over every legal run of a fresh host. */
  lemma OriginDiscipline(cfg: Config, s: State, es: seq<Event>)
    requires Fresh(s) && LegalRun(cfg, Snap(s, EMPTY_JOURNAL), es)
    ensures Disciplined(cfg, Snap(s, EMPTY_JOURNAL), es) <==> LeakFree(cfg, Snap(s, EMPTY_JOURNAL), es)
  {
    DisciplinedIff(cfg, Snap(s, EMPTY_JOURNAL), es);
  }

  // ----- which tx.origin a frame starts with -----

  /** Tx.origin before the call being made is that of the frame making it. */
  predicate BeforeKnown(j: Journal) {
    j.live != [] ==>
      && (j.pending.Some? ==> j.pending.value.before == BirthOrigin(j, j.live[|j.live| - 1]))
      && (Opening(j) ==> LastBracket(j).before == BirthOrigin(j, j.live[|j.live| - 1]))
  }

  /** Every frame was opened when tx.origin was that of the frame below it. */
  ghost predicate Handed(births: seq<Birth>) {
    forall k :: 0 <= k < |births| && births[k].parent.Some? ==>
      births[k].parent.value < |births| && births[k].before == births[births[k].parent.value].origin
  }

  lemma StepBeforeKnown(cfg: Config, c: Snap, e: Event, c': Snap)
    requires Bracketed(c.s, c.j) && NotLeaked(c.s, c.j) && BeforeKnown(c.j)
    requires Legal(c, e) && Advance(cfg, c, e) == Some(c') && !Leaks(c.j, e)
    ensures BeforeKnown(c'.j)
  {
    if e.Opcode? {
      OpcodeBracketed(cfg, c, e, c');
      LegalOpcode(cfg, c, e, c');
    } else if e.Exit? {
      ExitBracketed(cfg, c, e, c');
      LegalExit(cfg, c, e, c');
    } else {
      QuietStep(cfg, c, e, c');
    }
  }

  lemma StepHanded(cfg: Config, c: Snap, e: Event, c': Snap)
    requires Bracketed(c.s, c.j) && BeforeKnown(c.j) && Handed(c.j.births)
    requires Legal(c, e) && Advance(cfg, c, e) == Some(c')
    ensures Handed(c'.j.births)
  {
    if e.Opcode? {
      if Opening(c.j) {
        var b := OpenedBirth(cfg, c, e, c');
      } else {
        LegalOpcode(cfg, c, e, c');
      }
    } else if e.Exit? {
      LegalExit(cfg, c, e, c');
    }
  }

  lemma {:induction false} ExecHanded(cfg: Config, c: Snap, es: seq<Event>, c': Snap)
    requires Bracketed(c.s, c.j) && NotLeaked(c.s, c.j) && BeforeKnown(c.j) && Handed(c.j.births)
    requires Leads(cfg, c, es, c') && LeakFree(cfg, c, es)
    ensures Handed(c'.j.births)
    decreases |es|
  {
    if es != [] {
      var c1 := Advance(cfg, c, es[0]).value;
      StepBracketed(cfg, c, es[0], c1);
      StepNotLeaked(cfg, c, es[0], c1);
      StepBeforeKnown(cfg, c, es[0], c1);
      StepHanded(cfg, c, es[0], c1);
      ExecHanded(cfg, c1, es[1..], c');
    }
  }

  /**
   Frame origins. Over every legal run of a fresh host without a leak, a frame that another frame opened by CALL,
   CREATE or CREATE2 starts with the tx.origin of the prank if the prank redirects the call, and with the one
   that frame itself started with if not.
   */
  lemma FrameOrigins(cfg: Config, s: State, es: seq<Event>, c: Snap, k: nat)
    requires Fresh(s) && Leads(cfg, Snap(s, EMPTY_JOURNAL), es, c) && LeakFree(cfg, Snap(s, EMPTY_JOURNAL), es)
    requires k < |c.j.births| && c.j.births[k].parent.Some? && IsTransaction(c.j.births[k].op)
    ensures c.j.births[k].parent.value < |c.j.births|
    ensures var b := c.j.births[k];
            b.origin == PrankedOrigin(cfg, b.op, b.prank, c.j.births[b.parent.value].origin)
  {
    ExecHanded(cfg, Snap(s, EMPTY_JOURNAL), es, c);
    PrankedCalls(cfg, s, es, c, k);
  }

  // ----- the discipline does fail -----

  lemma {:induction false} BrokenAtEnd(cfg: Config, c: Snap, es: seq<Event>, c': Snap)
    requires Exec(cfg, c, es) == Some(c') && !OriginHolds(c')
    ensures !Disciplined(cfg, c, es)
    decreases |es|
  {
    if es != [] {
      BrokenAtEnd(cfg, Advance(cfg, c, es[0]).value, es[1..], c');
    }
  }

  /** The events of a CALL that opens no frame, by a frame at account `self`, after the opcode. */
  function LeafCall(depth: nat, self: Address, to: Address, g: U64): seq<Event> {
    [Call(self), Enter(depth, CALL, self, to), Exit(depth, g)]
  }

  /** The frame asks for and enters a redirected CALL. */
  lemma RedirectedCall(cfg: Config, c: Snap, to: Address) returns (c1: Snap, c2: Snap)
    requires Bracketed(c.s, c.j) && Kept(c.s, c.j) && Idle(c.j) && c.s.stack != [] && Top(c.s).ctx.self != VM_ADDR
    requires Top(c.s).lastOp == CALL && Redirects(cfg, CALL, Top(c.s).prank)
    requires Top(c.s).prank.value.origin.value != c.s.origin
    ensures var self := Top(c.s).ctx.self;
            && Legal(c, Call(self)) && Advance(cfg, c, Call(self)) == Some(c1)
            && Legal(c1, Enter(|c.s.stack|, CALL, self, to))
            && Advance(cfg, c1, Enter(|c.s.stack|, CALL, self, to)) == Some(c2)
    ensures Bracketed(c2.s, c2.j) && Kept(c2.s, c2.j) && c2.s.stack == c.s.stack
    ensures c2.j.pending.None? && Opening(c2.j) && LastBracket(c2.j).overridden && |c2.j.brackets| == |c.j.brackets| + 1
  {
    var self := Top(c.s).ctx.self;
    c1 := Advance(cfg, c, Call(self)).value;
    CallKept(cfg, c, Call(self), c1);
    var enter := Enter(|c.s.stack|, CALL, self, to);
    c2 := Advance(cfg, c1, enter).value;
    EnterKept(cfg, c1, enter, c2);
    QuietBracketed(cfg, c, Call(self), c1);
    QuietBracketed(cfg, c1, enter, c2);
  }

  lemma LeafCallBreaks(cfg: Config, c: Snap, to: Address, g: U64) returns (c': Snap)
    requires Bracketed(c.s, c.j) && Kept(c.s, c.j) && Idle(c.j) && c.s.stack != [] && Top(c.s).ctx.self != VM_ADDR
    requires Top(c.s).lastOp == CALL && Redirects(cfg, CALL, Top(c.s).prank)
    requires Top(c.s).prank.value.origin.value != c.s.origin
    ensures Leads(cfg, c, LeafCall(|c.s.stack|, Top(c.s).ctx.self, to, g), c') && !OriginHolds(c')
  {
    var n, self := |c.s.stack|, Top(c.s).ctx.self;
    var c1, c2 := RedirectedCall(cfg, c, to);
    LeafLeaves(cfg, c2, g);
    c' := Snap(Spend(c2.s, g), Charge(c2.j, g));
    LeafExit(cfg, c2, Exit(n, g), c');
    ThreeLead(cfg, c, Call(self), c1, Enter(n, CALL, self, to), c2, Exit(n, g), c');
  }

  /**
   Wherever the running frame has a prank that redirects its calls to another tx.origin, a CALL that opens no
   frame leaks that tx.origin into the frame.
   */
  lemma LeafCallLeaks(cfg: Config, c: Snap, pc: U64, to: Address, g: U64) returns (es: seq<Event>, c': Snap)
    requires Bracketed(c.s, c.j) && Kept(c.s, c.j) && Idle(c.j) && c.s.stack != [] && Top(c.s).ctx.self != VM_ADDR
    requires Redirects(cfg, CALL, Top(c.s).prank) && Top(c.s).prank.value.origin.value != c.s.origin
    ensures es == [Opcode(pc, CALL, |c.s.stack|, Top(c.s).ctx, 0)] + LeafCall(|c.s.stack|, Top(c.s).ctx.self, to, g)
    ensures Leads(cfg, c, es, c') && !OriginHolds(c') && !Disciplined(cfg, c, es)
  {
    var e := Opcode(pc, CALL, |c.s.stack|, Top(c.s).ctx, 0);
    var c1 := Advance(cfg, c, e).value;
    LegalOpcode(cfg, c, e, c1);
    OpcodeBracketed(cfg, c, e, c1);
    TickKept(cfg, c, e, c1);
    c' := LeafCallBreaks(cfg, c1, to, g);
    es := [e] + LeafCall(|c.s.stack|, Top(c.s).ctx.self, to, g);
    StepLeads(cfg, c, e, c1, LeafCall(|c.s.stack|, Top(c.s).ctx.self, to, g), c');
    BrokenAtEnd(cfg, c, es, c');
  }

  /** Such a frame is easily come by: a script with a repeating prank of tx.origin, here to 9. */
  lemma OriginLeaks(cfg: Config) returns (es: seq<Event>)
    ensures Fresh(EMPTY_HOST) && LegalRun(cfg, Snap(EMPTY_HOST, EMPTY_JOURNAL), es)
    ensures !Disciplined(cfg, Snap(EMPTY_HOST, EMPTY_JOURNAL), es)
  {
    var c := ScriptAt(1, Some(Prank(0, None, Some(9), 0, true, false)), 1);
    var before := PrankedScript(cfg, None, Some(9), true, false);
    assert GivesBack(c.s, c.j, 0);
    var c' := LeafCallBreaks(cfg, c, 7, 0);
    es := before + LeafCall(1, 2, 7, 0);
    LeadsOn(cfg, Snap(EMPTY_HOST, EMPTY_JOURNAL), before, c, LeafCall(1, 2, 7, 0), c');
    BrokenAtEnd(cfg, Snap(EMPTY_HOST, EMPTY_JOURNAL), es, c');
  }
}
