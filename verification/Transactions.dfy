/**
 The transactions of a run, from the calls into the host alone: over every run, what the journal took from the host
 about each frame is what the ledger says, and so is what the host broadcasts.
 */
module Transactions {
  import opened Basics
  import opened CallFrames
  import opened Journals
  import opened Exactness
  import opened Ledgers

  // ----- every frame that ever appeared -----

  predicate Recorded(b: Birth, e: Arrival) {
    b.depth == e.depth && b.scope == e.scope && b.op == e.op && b.salt == e.salt && OrderOf(b.prank) == e.order
  }

  ghost predicate AllRecorded(births: seq<Birth>, arrivals: seq<Arrival>) {
    |arrivals| == |births| && forall k :: 0 <= k < |births| ==> Recorded(births[k], arrivals[k])
  }

  lemma MoreRecorded(births: seq<Birth>, arrivals: seq<Arrival>, b: Birth, e: Arrival)
    requires AllRecorded(births, arrivals) && Recorded(b, e)
    ensures AllRecorded(births + [b], arrivals + [e])
  {
  }

  /** The frame that appears on `s1` is recorded as the ledger has it. */
  lemma BirthRecorded(s1: State, j1: Journal, notes: seq<Note>, e: Event, s': State)
    requires AllAgree(s1.stack, notes) && e.Opcode? && (s1.stack == [] || Top(s1).depth < e.depth)
    requires s' == Settle(s1, e.pc, e.op, e.depth, e.scope, e.salt)
    ensures Recorded(BirthOf(j1, s', e.depth, e.scope), ArrivalOn(notes, e.depth, e.scope))
  {
    if s1.stack != [] {
      TopAgrees(s1.stack, notes);
      assert s'.stack[|s'.stack| - 2] == Top(s1);
    }
  }

  lemma SettleRecorded(s1: State, j1: Journal, l: Ledger, e: Event, s': State)
    requires e.Opcode? && AllAgree(s1.stack, Leave(l.notes, e.depth)) && AllRecorded(j1.births, l.arrivals)
    requires s' == Settle(s1, e.pc, e.op, e.depth, e.scope, e.salt)
    ensures s1.stack == [] || Top(s1).depth < e.depth ==>
              AllRecorded(Open(j1, s', e.depth, e.scope).births, Heed(l, e).arrivals)
    ensures s1.stack != [] && Top(s1).depth >= e.depth ==> Heed(l, e).arrivals == l.arrivals
  {
    var notes := Leave(l.notes, e.depth);
    if s1.stack != [] {
      TopAgrees(s1.stack, notes);
    }
    if s1.stack == [] || Top(s1).depth < e.depth {
      BirthRecorded(s1, j1, notes, e, s');
      MoreRecorded(j1.births, l.arrivals, BirthOf(j1, s', e.depth, e.scope), ArrivalOn(notes, e.depth, e.scope));
    }
  }

  lemma OpcodeRecorded(cfg: Config, c: Snap, l: Ledger, e: Event, c': Snap)
    requires Exact(cfg, c) && AllAgree(c.s.stack, l.notes) && AllRecorded(c.j.births, l.arrivals)
    requires e.Opcode? && Advance(cfg, c, e) == Some(c')
    ensures AllRecorded(c'.j.births, Heed(l, e).arrivals)
  {
    var s1, j1 := OpcodeParts(cfg, c, e, c');
    UnwindExact(cfg, c.s, c.j, e.depth, s1);
    DepthsAgree(s1, j1);
    UnwindAgrees(cfg, c.s, l.notes, e.depth, s1);
    CloseKeepsBirths(c.j, e.depth);
    SettleRecorded(s1, j1, l, e, c'.s);
  }

  lemma OtherRecorded(cfg: Config, c: Snap, l: Ledger, e: Event, c': Snap)
    requires AllRecorded(c.j.births, l.arrivals) && !e.Opcode? && Advance(cfg, c, e) == Some(c')
    ensures AllRecorded(c'.j.births, Heed(l, e).arrivals)
  {
    if e.Exit? {
      CloseKeepsBirths(Charge(c.j, e.gasUsed), e.depth);
    } else {
      QuietStep(cfg, c, e, c');
    }
    assert c'.j.births == c.j.births;
  }

  lemma StepRecorded(cfg: Config, c: Snap, l: Ledger, e: Event, c': Snap)
    requires Exact(cfg, c) && AllAgree(c.s.stack, l.notes) && AllRecorded(c.j.births, l.arrivals)
    requires Advance(cfg, c, e) == Some(c')
    ensures AllRecorded(c'.j.births, Heed(l, e).arrivals)
  {
    if e.Opcode? {
      OpcodeRecorded(cfg, c, l, e, c');
    } else {
      OtherRecorded(cfg, c, l, e, c');
    }
  }

  lemma {:induction false} ExecRecorded(cfg: Config, c: Snap, l: Ledger, es: seq<Event>, c': Snap)
    requires Exact(cfg, c) && AllAgree(c.s.stack, l.notes) && AllRecorded(c.j.births, l.arrivals)
    requires Exec(cfg, c, es) == Some(c')
    ensures AllRecorded(c'.j.births, LedgerOf(l, es).arrivals)
    decreases |es|
  {
    if es != [] {
      var c1 := Advance(cfg, c, es[0]).value;
      StepExact(cfg, c, es[0], c1);
      StepAgrees(cfg, c.s, l, es[0], c1.s);
      StepRecorded(cfg, c, l, es[0], c1);
      ExecRecorded(cfg, c1, Heed(l, es[0]), es[1..], c');
    }
  }

  /**
   Frames by events. Over every run of a fresh host, what the journal took from the host about the frame below
   when a frame appeared is what the events say: the opcode that opened it, the salt of the last CREATE2, and
   the order in force, so none after a stop and none after a one-shot order has had its sub-call.
   */
  lemma FramesByEvents(cfg: Config, s: State, es: seq<Event>, c: Snap, k: nat)
    requires Fresh(s) && Exec(cfg, Snap(s, EMPTY_JOURNAL), es) == Some(c) && k < |c.j.births|
    ensures |LedgerOf(BLANK, es).arrivals| == |c.j.births|
    ensures var b, e := c.j.births[k], LedgerOf(BLANK, es).arrivals[k];
            && b.depth == e.depth && b.scope == e.scope && b.op == e.op && b.salt == e.salt
            && OrderOf(b.prank) == e.order
  {
    ExecRecorded(cfg, Snap(s, EMPTY_JOURNAL), BLANK, es, c);
    assert Recorded(c.j.births[k], LedgerOf(BLANK, es).arrivals[k]);
  }

  // ----- broadcasts -----

  /** A frame that is to be reported: opened under a broadcast by CALL, CREATE or CREATE2. */
  predicate ToReport(e: Arrival) {
    e.order.Some? && e.order.value.broadcast && (e.op == CALL || e.op == CREATE || e.op == CREATE2)
  }

  /** Those of the closed frames that are to be reported, in the order they were closed. */
  function ToReportIds(arrivals: seq<Arrival>, closed: seq<nat>): (r: seq<nat>)
    ensures forall k :: 0 <= k < |r| ==> r[k] < |arrivals| && ToReport(arrivals[r[k]])
  {
    if closed == [] then []
    else
      var last := closed[|closed| - 1];
      ToReportIds(arrivals, closed[..|closed| - 1]) +
      if last < |arrivals| && ToReport(arrivals[last]) then [last] else []
  }

  /** `bc` is the transaction that the events say opened the frame. */
  predicate Transacts(bc: Broadcast, e: Arrival) {
    && bc.from == e.scope.caller && bc.to == e.scope.self
    && bc.input == (if e.scope.isDeployment then e.scope.code else e.scope.input)
    && bc.value == (if e.scope.value.Some? then e.scope.value.value else 0)
    && (e.op == CALL ==> bc.typ == BroadcastCall && bc.salt == 0)
    && (e.op == CREATE ==> bc.typ == BroadcastCreate && bc.salt == 0)
    && (e.op == CREATE2 ==> bc.typ == BroadcastCreate2 && bc.salt == e.salt && bc.nonce == 0)
  }

  lemma {:induction false} SameReports(births: seq<Birth>, arrivals: seq<Arrival>, closed: seq<nat>)
    requires AllRecorded(births, arrivals)
    ensures ToReportIds(arrivals, closed) == ReportedIds(births, closed)
  {
    if closed != [] {
      var last := closed[|closed| - 1];
      SameReports(births, arrivals, closed[..|closed| - 1]);
      assert last < |births| ==> Recorded(births[last], arrivals[last]);
    }
  }

  /**
   Broadcasts by events. Over every run of a fresh host the broadcasts are, one for one and in the order the
   frames were closed, the transactions that the events say were made under a broadcast order; a CREATE2 carries
   the salt of the opcode that opened its frame.
   */
  lemma BroadcastsByEvents(cfg: Config, s: State, es: seq<Event>, c: Snap)
    requires Fresh(s) && Exec(cfg, Snap(s, EMPTY_JOURNAL), es) == Some(c)
    ensures var arrivals := LedgerOf(BLANK, es).arrivals;
            var ids := ToReportIds(arrivals, c.j.closed);
            && |c.s.broadcasts| == |ids|
            && forall k :: 0 <= k < |ids| ==> Transacts(c.s.broadcasts[k], arrivals[ids[k]])
  {
    var arrivals := LedgerOf(BLANK, es).arrivals;
    ExecRecorded(cfg, Snap(s, EMPTY_JOURNAL), BLANK, es, c);
    ExecExact(cfg, Snap(s, EMPTY_JOURNAL), es, c);
    SameReports(c.j.births, arrivals, c.j.closed);
    var ids := ToReportIds(arrivals, c.j.closed);
    forall k | 0 <= k < |ids| ensures Transacts(c.s.broadcasts[k], arrivals[ids[k]]) {
      assert Recorded(c.j.births[ids[k]], arrivals[ids[k]]);
      assert Describes(cfg, c.s.broadcasts[k], c.j.births[ids[k]]);
    }
  }
}
