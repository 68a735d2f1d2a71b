/**
 How long a prank or broadcast lasts, over every run: one that does not repeat governs at most one
 sub-call that opens a frame and is reported at most once; one that repeats stays as it was set until it
 is stopped or replaced, or its frame goes.
 */
module OneShot {
  import opened Basics
  import opened CallFrames
  import opened Journals
  import opened Exactness

  predicate SamePrank(p: Option<Prank>, q: Option<Prank>) {
    p.Some? && q.Some? && p.value.id == q.value.id
  }

  /** Prank allocations are known and no two frames share one. */
  ghost predicate Distinct(s: State) {
    && (forall i :: 0 <= i < |s.stack| && s.stack[i].prank.Some? ==> s.stack[i].prank.value.id < s.nextPrank)
    && (forall i, k :: 0 <= i < k < |s.stack| ==> !SamePrank(s.stack[i].prank, s.stack[k].prank))
  }

  ghost predicate BirthsKnown(births: seq<Birth>, next: nat) {
    forall b :: 0 <= b < |births| && births[b].prank.Some? ==> births[b].prank.value.id < next
  }

  /** Frames opened under one prank: under the same one, from the same frame, and only if it repeats. */
  ghost predicate Governed(births: seq<Birth>) {
    forall a, b :: 0 <= a < b < |births| && SamePrank(births[a].prank, births[b].prank) ==>
                     births[a].prank == births[b].prank && births[a].prank.value.repeats
  }

  /** The frames that the current prank of frame `i` opened: of a one-shot prank only the live one above it. */
  ghost predicate Current(s: State, j: Journal) {
    forall i, b :: 0 <= i < |s.stack| && 0 <= b < |j.births| && SamePrank(s.stack[i].prank, j.births[b].prank) ==>
                     && j.births[b].prank == s.stack[i].prank
                     && (s.stack[i].prank.value.repeats || (i + 1 < |j.live| && j.live[i + 1] == b))
  }

  ghost predicate Lasting(s: State, j: Journal) {
    && |j.live| == |s.stack|
    && Distinct(s) && BirthsKnown(j.births, s.nextPrank) && Governed(j.births) && Current(s, j)
  }

  // ----- steps -----

  lemma PopLasting(cfg: Config, s: State, j: Journal, s': State)
    requires s.stack != [] && Lasting(s, j) && Pop(cfg, s) == Some(s')
    ensures Lasting(s', CloseTop(j))
  {
    var n := |s.stack|;
    assert forall i :: 0 <= i < n - 1 ==> s'.stack[i].prank == s.stack[i].prank || s'.stack[i].prank.None?;
    assert forall i :: 0 <= i < n - 2 ==> s'.stack[i].prank == s.stack[i].prank;
    assert n > 1 && s'.stack[n - 2].prank.Some? ==> s'.stack[n - 2].prank.value.repeats;
  }

  lemma {:induction false} UnwindLasting(cfg: Config, s: State, j: Journal, depth: int, s': State)
    requires Exact(cfg, Snap(s, j)) && Lasting(s, j) && Unwind(cfg, s, depth) == Some(s')
    ensures Lasting(s', Close(j, depth))
    decreases |s.stack|
  {
    DepthsAgree(s, j);
    if s.stack != [] && Top(s).depth > depth {
      var s1 := Pop(cfg, s).value;
      PopLasting(cfg, s, j, s1);
      PopExact(cfg, s, j, s1);
      UnwindLasting(cfg, s1, CloseTop(j), depth, s');
    }
  }

  /** A change that touches no prank, or gives the top frame a new one or none. */
  lemma TopLasting(s: State, j: Journal, s': State, j': Journal)
    requires Lasting(s, j) && SameFrames(j, j')
    requires |s'.stack| == |s.stack| && s'.nextPrank >= s.nextPrank
    requires forall i :: 0 <= i < |s.stack| - 1 ==> s'.stack[i].prank == s.stack[i].prank
    requires s.stack != [] ==>
               || Top(s').prank == Top(s).prank
               || Top(s').prank == None
               || (Top(s').prank.value.id == s.nextPrank < s'.nextPrank)
    ensures Lasting(s', j')
  {
  }

  /** The new frame was opened under the prank of the frame below it. */
  lemma BirthPrank(s: State, j: Journal, f: Frame, s': State)
    requires s'.stack == s.stack + [f]
    ensures BirthOf(j, s', f.depth, f.ctx).prank == if s.stack == [] then None else Top(s).prank
  {
    assert s.stack != [] ==> s'.stack[|s'.stack| - 2] == Top(s);
  }

  /** Frames opened before under the same prank mean that it repeats. */
  lemma OpenGoverned(s: State, j: Journal, b: Birth)
    requires Lasting(s, j) && b.prank == if s.stack == [] then None else Top(s).prank
    ensures BirthsKnown(j.births + [b], s.nextPrank) && Governed(j.births + [b])
  {
    var n := |s.stack|;
    assert forall a :: 0 <= a < |j.births| && SamePrank(j.births[a].prank, b.prank) ==>
        SamePrank(s.stack[n - 1].prank, j.births[a].prank);
  }

  lemma OpenLasting(s: State, j: Journal, f: Frame, s': State)
    requires Lasting(s, j)
    requires s'.stack == s.stack + [f] && f.prank.None? && s'.nextPrank == s.nextPrank
    ensures Lasting(s', Open(j, s', f.depth, f.ctx))
  {
    var n := |s.stack|;
    var j' := Open(j, s', f.depth, f.ctx);
    BirthPrank(s, j, f, s');
    OpenGoverned(s, j, BirthOf(j, s', f.depth, f.ctx));
    assert forall i :: 0 <= i < n ==> s'.stack[i] == s.stack[i] && j'.live[i] == j.live[i];
    assert forall a :: 0 <= a < |j.births| ==> j'.births[a] == j.births[a];
  }

  lemma SettleLasting(s: State, j: Journal, e: Event, s': State)
    requires Lasting(s, j) && e.Opcode?
    requires s' == Settle(s, e.pc, e.op, e.depth, e.scope, e.salt)
    ensures if s.stack == [] || Top(s).depth < e.depth
            then Lasting(s', Open(j, s', e.depth, e.scope))
            else Lasting(s', j)
  {
    if s.stack == [] || Top(s).depth < e.depth {
      var f := Tick(NewFrame(s, e.depth, e.pc, e.op, e.scope), e.pc, e.op, e.salt);
      assert s'.stack == s.stack + [f];
      OpenLasting(s, j, f, s');
    } else {
      TopLasting(s, j, s', j);
    }
  }

  lemma OpcodeLasting(cfg: Config, c: Snap, e: Event, c': Snap)
    requires Exact(cfg, c) && Lasting(c.s, c.j) && e.Opcode? && Advance(cfg, c, e) == Some(c')
    ensures Lasting(c'.s, c'.j)
  {
    var s1, j1 := OpcodeParts(cfg, c, e, c');
    UnwindExact(cfg, c.s, c.j, e.depth, s1);
    UnwindLasting(cfg, c.s, c.j, e.depth, s1);
    DepthsAgree(s1, j1);
    SettleLasting(s1, j1, e, c'.s);
  }

  lemma SpendLasting(cfg: Config, s: State, j: Journal, g: U64)
    requires Exact(cfg, Snap(s, j)) && Lasting(s, j) && s.stack != []
    ensures Exact(cfg, Snap(Spend(s, g), Charge(j, g))) && Lasting(Spend(s, g), Charge(j, g))
  {
    TopChange(cfg, s, j, Spend(s, g), Charge(j, g));
    TopLasting(s, j, Spend(s, g), Charge(j, g));
  }

  lemma ExitLasting(cfg: Config, c: Snap, e: Event, c': Snap)
    requires Exact(cfg, c) && Lasting(c.s, c.j) && e.Exit? && Advance(cfg, c, e) == Some(c')
    ensures Lasting(c'.s, c'.j)
  {
    SpendLasting(cfg, c.s, c.j, e.gasUsed);
    UnwindLasting(cfg, Spend(c.s, e.gasUsed), Charge(c.j, e.gasUsed), e.depth, c'.s);
  }

  lemma QuietLasting(cfg: Config, c: Snap, e: Event, c': Snap)
    requires Lasting(c.s, c.j) && !e.Opcode? && !e.Exit? && Advance(cfg, c, e) == Some(c')
    ensures Lasting(c'.s, c'.j)
  {
    QuietStep(cfg, c, e, c');
    assert c.s.stack != [] ==>
        || Top(c'.s).prank == Top(c.s).prank
        || Top(c'.s).prank == None
        || (Top(c'.s).prank.value.id == c.s.nextPrank < c'.s.nextPrank);
    TopLasting(c.s, c.j, c'.s, c'.j);
  }

  lemma StepLasting(cfg: Config, c: Snap, e: Event, c': Snap)
    requires Exact(cfg, c) && Lasting(c.s, c.j) && Advance(cfg, c, e) == Some(c')
    ensures Lasting(c'.s, c'.j)
  {
    match e
    case Opcode(_, _, _, _, _) => OpcodeLasting(cfg, c, e, c');
    case Exit(_, _) => ExitLasting(cfg, c, e, c');
    case _ => QuietLasting(cfg, c, e, c');
  }

  lemma {:induction false} ExecLasting(cfg: Config, c: Snap, es: seq<Event>, c': Snap)
    requires Exact(cfg, c) && Lasting(c.s, c.j) && Exec(cfg, c, es) == Some(c')
    ensures Exact(cfg, c') && Lasting(c'.s, c'.j)
    decreases |es|
  {
    if es != [] {
      var c1 := Advance(cfg, c, es[0]).value;
      StepExact(cfg, c, es[0], c1);
      StepLasting(cfg, c, es[0], c1);
      ExecLasting(cfg, c1, es[1..], c');
    }
  }

  // ----- reports -----

  /**
   One-shot pranks. Over any run of a fresh host, two different frames opened under one prank, and two
   different reports made under one broadcast, mean that it repeats and was the same at both.
   */
  lemma OneShotPranks(cfg: Config, s: State, es: seq<Event>, c: Snap)
    requires Fresh(s) && Exec(cfg, Snap(s, EMPTY_JOURNAL), es) == Some(c)
    ensures forall a, b :: 0 <= a < b < |c.j.births| && SamePrank(c.j.births[a].prank, c.j.births[b].prank) ==>
              c.j.births[a].prank == c.j.births[b].prank && c.j.births[a].prank.value.repeats
    ensures var ids := ReportedIds(c.j.births, c.j.closed);
            forall a, b :: 0 <= a < b < |ids| && SamePrank(c.j.births[ids[a]].prank, c.j.births[ids[b]].prank) ==>
              c.j.births[ids[a]].prank.value.repeats
  {
    ExecLasting(cfg, Snap(s, EMPTY_JOURNAL), es, c);
    var ids := ReportedIds(c.j.births, c.j.closed);
    forall a, b | 0 <= a < b < |ids| && SamePrank(c.j.births[ids[a]].prank, c.j.births[ids[b]].prank)
      ensures c.j.births[ids[a]].prank.value.repeats
    {
      DistinctReports(c.j, a, b);
      assert SamePrank(c.j.births[ids[b]].prank, c.j.births[ids[a]].prank);
    }
  }

  // ----- repeating pranks -----

  lemma {:induction false} UnwindKeepsRepeating(cfg: Config, s: State, depth: int, s': State, i: nat)
    requires Unwind(cfg, s, depth) == Some(s') && i < |s'.stack|
    ensures i < |s.stack|
    ensures s.stack[i].prank.Some? && s.stack[i].prank.value.repeats ==> s'.stack[i].prank == s.stack[i].prank
    decreases |s.stack|
  {
    if s.stack != [] && Top(s).depth > depth {
      UnwindKeepsRepeating(cfg, Pop(cfg, s).value, depth, s', i);
    }
  }

  /** A StartPrank or EndPrank that finds frame `i` on top. */
  predicate Meddles(s: State, e: Event, i: nat) {
    (e.StartPrank? || e.EndPrank?) && i + 1 == |s.stack|
  }

  lemma SettleKeepsPranks(s: State, e: Event, s': State, i: nat)
    requires e.Opcode? && s' == Settle(s, e.pc, e.op, e.depth, e.scope, e.salt) && i < |s.stack|
    ensures i < |s'.stack| && s'.stack[i].prank == s.stack[i].prank
  {
  }

  lemma OpcodeKeepsRepeating(cfg: Config, c: Snap, e: Event, c': Snap, i: nat)
    requires Exact(cfg, c) && e.Opcode? && Advance(cfg, c, e) == Some(c')
    requires i < |c.j.live| && i < |c'.j.live| && c'.j.live[i] == c.j.live[i]
    requires c.s.stack[i].prank.Some? && c.s.stack[i].prank.value.repeats
    ensures i < |c'.s.stack| && c'.s.stack[i].prank == c.s.stack[i].prank
  {
    var s1, j1 := OpcodeParts(cfg, c, e, c');
    UnwindExact(cfg, c.s, c.j, e.depth, s1);
    DepthsAgree(s1, j1);
    CloseKeepsBirths(c.j, e.depth);
    UnwindKeepsRepeating(cfg, c.s, e.depth, s1, i);
    SettleKeepsPranks(s1, e, c'.s, i);
  }

  lemma ExitKeepsRepeating(cfg: Config, c: Snap, e: Event, c': Snap, i: nat)
    requires Exact(cfg, c) && e.Exit? && Advance(cfg, c, e) == Some(c')
    requires i < |c.j.live| && i < |c'.j.live|
    requires c.s.stack[i].prank.Some? && c.s.stack[i].prank.value.repeats
    ensures i < |c'.s.stack| && c'.s.stack[i].prank == c.s.stack[i].prank
  {
    StepExact(cfg, c, e, c');
    UnwindKeepsRepeating(cfg, Spend(c.s, e.gasUsed), e.depth, c'.s, i);
  }

  lemma StepKeepsRepeating(cfg: Config, c: Snap, e: Event, c': Snap, i: nat)
    requires Exact(cfg, c) && Advance(cfg, c, e) == Some(c')
    requires i < |c.j.live| && i < |c'.j.live| && c'.j.live[i] == c.j.live[i]
    requires c.s.stack[i].prank.Some? && c.s.stack[i].prank.value.repeats && !Meddles(c.s, e, i)
    ensures i < |c'.s.stack| && c'.s.stack[i].prank == c.s.stack[i].prank
  {
    match e
    case Opcode(_, _, _, _, _) => OpcodeKeepsRepeating(cfg, c, e, c', i);
    case Exit(_, _) => ExitKeepsRepeating(cfg, c, e, c', i);
    case _ => QuietStep(cfg, c, e, c');
  }

  /** Frame `i` stays on the stack over the run and nothing sets or stops a prank while it is on top. */
  ghost predicate Undisturbed(cfg: Config, c: Snap, es: seq<Event>, i: nat)
    decreases |es|
  {
    es == [] ||
    (!Meddles(c.s, es[0], i) &&
     match Advance(cfg, c, es[0])
     case None => true
     case Some(c') =>
       && i < |c.j.live| && i < |c'.j.live| && c'.j.live[i] == c.j.live[i]
       && Undisturbed(cfg, c', es[1..], i))
  }

  lemma {:induction false} RepeatingKept(cfg: Config, c: Snap, es: seq<Event>, c': Snap, i: nat)
    requires Exact(cfg, c) && Exec(cfg, c, es) == Some(c') && Undisturbed(cfg, c, es, i)
    requires i < |c.s.stack| && c.s.stack[i].prank.Some? && c.s.stack[i].prank.value.repeats
    ensures i < |c'.s.stack| && c'.s.stack[i].prank == c.s.stack[i].prank
    decreases |es|
  {
    if es != [] {
      var c1 := Advance(cfg, c, es[0]).value;
      StepExact(cfg, c, es[0], c1);
      StepKeepsRepeating(cfg, c, es[0], c1, i);
      RepeatingKept(cfg, c1, es[1..], c', i);
    }
  }

  /**
   After any run of a fresh host, a repeating prank or broadcast persists unchanged until it is stopped or
   replaced while its frame is on top, or its frame goes.
   */
  lemma RepeatingPersists(cfg: Config, s: State, es0: seq<Event>, c: Snap, es: seq<Event>, c': Snap, i: nat)
    requires Fresh(s) && Exec(cfg, Snap(s, EMPTY_JOURNAL), es0) == Some(c)
    requires Exec(cfg, c, es) == Some(c') && Undisturbed(cfg, c, es, i)
    requires i < |c.s.stack| && c.s.stack[i].prank.Some? && c.s.stack[i].prank.value.repeats
    ensures i < |c'.s.stack| && c'.s.stack[i].prank == c.s.stack[i].prank
  {
    ExecExact(cfg, Snap(s, EMPTY_JOURNAL), es0, c);
    RepeatingKept(cfg, c, es, c', i);
  }
}
