/**
 Broadcast exactness: over every run, whatever the hooks are called with, the reported broadcasts are
 the popped frames that were opened under an active broadcast by CALL, CREATE or CREATE2: each once, in
 pop order, described as they were opened. What makes it true is that the opcode, salt and prank of a
 frame cannot change while a sub-call of it is live.
 */
module Exactness {
  import opened Basics
  import opened CallFrames
  import opened Journals

  // ----- the two views of the live frames agree -----

  predicate RecordOf(f: Frame, b: Birth) {
    f.depth == b.depth && f.ctx == b.scope && f.callerNonce == b.callerNonce
  }

  /** `b` was opened by frame `f`, numbered `id`, exactly as `f` is now. */
  predicate OpenedBy(f: Frame, id: nat, b: Birth) {
    b.parent == Some(id) && b.op == f.lastOp && b.prank == f.prank && b.salt == f.lastSalt
  }

  /** Frame `i` of the stack was opened by the frame below it. */
  predicate Link(s: State, j: Journal, i: nat) {
    && 0 < i < |s.stack| && i < |j.live| && j.live[i] < |j.births|
    && OpenedBy(s.stack[i - 1], j.live[i - 1], j.births[j.live[i]])
  }

  ghost predicate Aligned(s: State, j: Journal) {
    && |j.live| == |s.stack|
    && (forall i :: 0 <= i < |j.live| ==> j.live[i] < |j.births|)
    && (forall i :: 0 <= i < |j.live| ==> RecordOf(s.stack[i], j.births[j.live[i]]))
    && (j.live != [] ==> j.births[j.live[0]].parent.None? && j.births[j.live[0]].prank.None?)
    && (forall i :: 0 < i < |j.live| ==> Link(s, j, i))
  }

  // ----- every frame is live or was closed once -----

  ghost function Serials(n: nat): multiset<nat> {
    if n == 0 then multiset{} else Serials(n - 1) + multiset{n - 1}
  }

  ghost predicate Accounted(j: Journal) {
    multiset(j.closed) + multiset(j.live) == Serials(|j.births|)
  }

  lemma {:induction false} SerialsOnce(n: nat, id: nat)
    ensures Serials(n)[id] == if id < n then 1 else 0
  {
    if n > 0 {
      SerialsOnce(n - 1, id);
    }
  }

  // ----- the reports the journal calls for -----

  predicate Reportable(b: Birth) {
    b.prank.Some? && b.prank.value.broadcast && (b.op == CALL || b.op == CREATE || b.op == CREATE2)
  }

  /** The numbers of the closed frames that call for a report, in the order they were closed. */
  function ReportedIds(births: seq<Birth>, closed: seq<nat>): (r: seq<nat>)
    ensures forall k :: 0 <= k < |r| ==> r[k] < |births| && Reportable(births[r[k]])
  {
    if closed == [] then []
    else
      var last := closed[|closed| - 1];
      ReportedIds(births, closed[..|closed| - 1]) +
      if last < |births| && Reportable(births[last]) then [last] else []
  }

  function TypeOf(op: Byte): BroadcastType {
    if op == CALL then BroadcastCall else if op == CREATE then BroadcastCreate else BroadcastCreate2
  }

  /** `bc` describes the call that opened `b`; the gas is settled elsewhere. */
  predicate Describes(cfg: Config, bc: Broadcast, b: Birth) {
    && bc.typ == TypeOf(b.op)
    && bc.from == b.scope.caller
    && bc.to == b.scope.self
    && bc.input == (if b.scope.isDeployment then b.scope.code else b.scope.input)
    && bc.value == (if b.scope.value.Some? then b.scope.value.value else 0)
    && bc.salt == (if b.op == CREATE2 then b.salt else 0)
    && bc.nonce == (if b.op == CREATE2 then 0 else Minus1(b.callerNonce))
    && (b.op == CREATE ==> bc.to == cfg.createAddress(bc.from, bc.nonce))
    && (b.op == CREATE2 ==> bc.to == cfg.create2Address(bc.from, bc.salt, bc.input))
  }

  ghost predicate Reported(cfg: Config, s: State, j: Journal) {
    var ids := ReportedIds(j.births, j.closed);
    && |s.broadcasts| == |ids|
    && forall k :: 0 <= k < |ids| ==> Describes(cfg, s.broadcasts[k], j.births[ids[k]])
  }

  ghost predicate Exact(cfg: Config, c: Snap) {
    Aligned(c.s, c.j) && Accounted(c.j) && Reported(cfg, c.s, c.j)
  }

  // ----- steps -----

  lemma {:induction false} ReportedIdsGrow(births: seq<Birth>, b: Birth, closed: seq<nat>)
    requires forall k :: 0 <= k < |closed| ==> closed[k] < |births|
    ensures ReportedIds(births + [b], closed) == ReportedIds(births, closed)
  {
    if closed != [] {
      ReportedIdsGrow(births, b, closed[..|closed| - 1]);
    }
  }

  lemma ClosedKnown(j: Journal)
    requires Accounted(j)
    ensures forall k :: 0 <= k < |j.closed| ==> j.closed[k] < |j.births|
  {
    forall k | 0 <= k < |j.closed| ensures j.closed[k] < |j.births| {
      assert j.closed[k] in multiset(j.closed);
      SerialsOnce(|j.births|, j.closed[k]);
    }
  }

  lemma PopAligned(cfg: Config, s: State, j: Journal, s': State)
    requires s.stack != [] && Aligned(s, j) && Pop(cfg, s) == Some(s')
    ensures Aligned(s', CloseTop(j))
  {
    var n := |s.stack|;
    assert forall i :: 0 <= i < n - 2 ==> s'.stack[i] == s.stack[i];
    assert forall i :: 0 <= i < n - 1 ==> CloseTop(j).live[i] == j.live[i];
    assert forall i :: 0 <= i < n - 1 ==> RecordOf(s.stack[i], j.births[j.live[i]]);
    forall i | 0 < i < n - 1 ensures Link(s', CloseTop(j), i) { assert Link(s, j, i); }
  }

  lemma CloseAccounted(j: Journal)
    requires j.live != [] && Accounted(j)
    ensures Accounted(CloseTop(j))
  {
    assert j.live == j.live[..|j.live| - 1] + [j.live[|j.live| - 1]];
  }

  // ----- no frame is counted twice -----

  lemma NoRepeat(q: seq<nat>, a: nat, b: nat)
    requires a < b < |q| && multiset(q)[q[a]] <= 1
    ensures q[a] != q[b]
  {
    assert q == q[..b] + [q[b]] + q[b + 1..];
    assert q[..b][a] == q[a];
  }

  lemma LiveDistinct(j: Journal, a: nat, b: nat)
    requires Accounted(j) && a < b < |j.live|
    ensures j.live[a] != j.live[b]
  {
    SerialsOnce(|j.births|, j.live[a]);
    assert multiset(j.live)[j.live[a]] <= Serials(|j.births|)[j.live[a]];
    NoRepeat(j.live, a, b);
  }

  lemma {:induction false} ReportsAreClosed(births: seq<Birth>, closed: seq<nat>)
    ensures multiset(ReportedIds(births, closed)) <= multiset(closed)
  {
    if closed != [] {
      ReportsAreClosed(births, closed[..|closed| - 1]);
      assert closed == closed[..|closed| - 1] + [closed[|closed| - 1]];
    }
  }

  lemma DistinctReports(j: Journal, a: nat, b: nat)
    requires Accounted(j) && a < b < |ReportedIds(j.births, j.closed)|
    ensures ReportedIds(j.births, j.closed)[a] != ReportedIds(j.births, j.closed)[b]
  {
    var ids := ReportedIds(j.births, j.closed);
    ReportsAreClosed(j.births, j.closed);
    SerialsOnce(|j.births|, ids[a]);
    assert multiset(j.closed)[ids[a]] <= Serials(|j.births|)[ids[a]];
    NoRepeat(ids, a, b);
  }

  lemma ReportNotLive(j: Journal, k: nat, i: nat)
    requires Accounted(j) && k < |ReportedIds(j.births, j.closed)| && i < |j.live|
    ensures ReportedIds(j.births, j.closed)[k] != j.live[i]
  {
    var id := ReportedIds(j.births, j.closed)[k];
    ReportsAreClosed(j.births, j.closed);
    SerialsOnce(|j.births|, id);
    assert id in multiset(ReportedIds(j.births, j.closed));
    assert (multiset(j.closed) + multiset(j.live))[id] == Serials(|j.births|)[id];
    assert j.live[i] in multiset(j.live);
  }

  /** Leaving one frame reports what the journal recorded about it when it was opened. */
  lemma EmittedMatches(cfg: Config, parent: Frame, id: nat, current: Frame, b: Birth, bs: seq<Broadcast>)
    requires OpenedBy(parent, id, b) && RecordOf(current, b)
    requires Emitted(cfg, parent, current) == Some(bs)
    ensures |bs| == if Reportable(b) then 1 else 0
    ensures Reportable(b) ==> Describes(cfg, bs[0], b)
    ensures Reportable(b) ==> bs[0].gasUsed == current.gasUsed
  {
  }

  lemma PopReported(cfg: Config, s: State, j: Journal, s': State)
    requires s.stack != [] && Aligned(s, j) && Reported(cfg, s, j) && Pop(cfg, s) == Some(s')
    ensures Reported(cfg, s', CloseTop(j))
  {
    var n := |s.stack|;
    var id := j.live[n - 1];
    var closed := j.closed + [id];
    assert closed[..|closed| - 1] == j.closed;
    assert RecordOf(s.stack[n - 1], j.births[id]);
    if n > 1 {
      assert Link(s, j, n - 1);
      EmittedMatches(cfg, s.stack[n - 2], j.live[n - 2], s.stack[n - 1], j.births[id],
                     Emitted(cfg, s.stack[n - 2], s.stack[n - 1]).value);
    }
  }

  lemma PopExact(cfg: Config, s: State, j: Journal, s': State)
    requires s.stack != [] && Exact(cfg, Snap(s, j)) && Pop(cfg, s) == Some(s')
    ensures Exact(cfg, Snap(s', CloseTop(j)))
  {
    PopAligned(cfg, s, j, s');
    CloseAccounted(j);
    PopReported(cfg, s, j, s');
  }

  lemma {:induction false} UnwindExact(cfg: Config, s: State, j: Journal, depth: int, s': State)
    requires Exact(cfg, Snap(s, j)) && Unwind(cfg, s, depth) == Some(s')
    ensures Exact(cfg, Snap(s', Close(j, depth)))
    decreases |s.stack|
  {
    if s.stack != [] {
      DepthsAgree(s, j);
      if Top(s).depth > depth {
        var s1 := Pop(cfg, s).value;
        PopExact(cfg, s, j, s1);
        UnwindExact(cfg, s1, CloseTop(j), depth, s');
      }
    }
  }

  lemma TopAligned(s: State, j: Journal, s': State, j': Journal)
    requires Aligned(s, j) && SameFrames(j, j') && |s'.stack| == |s.stack|
    requires forall i :: 0 <= i < |s.stack| - 1 ==> s'.stack[i] == s.stack[i]
    requires s.stack != [] ==>
               && Top(s').depth == Top(s).depth && Top(s').ctx == Top(s).ctx
               && Top(s').callerNonce == Top(s).callerNonce
    ensures Aligned(s', j')
  {
    var n := |s.stack|;
    forall i | 0 <= i < n ensures RecordOf(s'.stack[i], j.births[j.live[i]]) {
      assert RecordOf(s.stack[i], j.births[j.live[i]]);
    }
    forall i | 0 < i < n ensures Link(s', j', i) { assert Link(s, j, i); }
  }

  /** Changes to the top frame that leave it the same frame do not matter: nothing was opened by it yet. */
  lemma TopChange(cfg: Config, s: State, j: Journal, s': State, j': Journal)
    requires Exact(cfg, Snap(s, j)) && SameFrames(j, j')
    requires |s'.stack| == |s.stack| && s'.broadcasts == s.broadcasts
    requires forall i :: 0 <= i < |s.stack| - 1 ==> s'.stack[i] == s.stack[i]
    requires s.stack != [] ==>
               && Top(s').depth == Top(s).depth && Top(s').ctx == Top(s).ctx
               && Top(s').callerNonce == Top(s).callerNonce
    ensures Exact(cfg, Snap(s', j'))
  {
    TopAligned(s, j, s', j');
  }

  lemma OpenAligned(s: State, j: Journal, f: Frame, s': State)
    requires Aligned(s, j)
    requires s'.stack == s.stack + [f] && f.callerNonce == NonceOf(s'.nonces, f.ctx.caller)
    ensures Aligned(s', Open(j, s', f.depth, f.ctx))
  {
    var n := |s.stack|;
    var j' := Open(j, s', f.depth, f.ctx);
    assert forall i :: 0 <= i < n ==> s'.stack[i] == s.stack[i] && j'.live[i] == j.live[i];
    assert forall i :: 0 <= i < n ==> j'.births[j.live[i]] == j.births[j.live[i]];
    assert j'.births[|j.births|] == BirthOf(j, s', f.depth, f.ctx);
    assert n > 0 ==> s'.stack[|s'.stack| - 2] == s.stack[n - 1];
    forall i | 0 < i < n ensures Link(s', j', i) { assert Link(s, j, i); }
    assert n > 0 ==> Link(s', j', n);
  }

  lemma OpenExact(cfg: Config, s: State, j: Journal, f: Frame, s': State)
    requires Exact(cfg, Snap(s, j))
    requires s'.stack == s.stack + [f] && s'.broadcasts == s.broadcasts
    requires f.callerNonce == NonceOf(s'.nonces, f.ctx.caller)
    ensures Exact(cfg, Snap(s', Open(j, s', f.depth, f.ctx)))
  {
    OpenAligned(s, j, f, s');
    ClosedKnown(j);
    ReportedIdsGrow(j.births, BirthOf(j, s', f.depth, f.ctx), j.closed);
  }

  lemma DepthsAgree(s: State, j: Journal)
    requires Aligned(s, j)
    ensures LiveDepth(j) == if s.stack == [] then None else Some(Top(s).depth)
  {
    assert s.stack != [] ==> RecordOf(s.stack[|s.stack| - 1], j.births[j.live[|s.stack| - 1]]);
  }

  lemma SettleExact(cfg: Config, s: State, j: Journal, e: Event, s': State)
    requires Exact(cfg, Snap(s, j)) && e.Opcode?
    requires s' == Settle(s, e.pc, e.op, e.depth, e.scope, e.salt)
    ensures if s.stack == [] || Top(s).depth < e.depth
            then Exact(cfg, Snap(s', Open(j, s', e.depth, e.scope)))
            else Exact(cfg, Snap(s', j))
  {
    if s.stack == [] || Top(s).depth < e.depth {
      var f := Tick(NewFrame(s, e.depth, e.pc, e.op, e.scope), e.pc, e.op, e.salt);
      assert s'.stack == s.stack + [f];
      OpenExact(cfg, s, j, f, s');
    } else {
      TopChange(cfg, s, j, s', j);
    }
  }

  lemma OpcodeExact(cfg: Config, c: Snap, e: Event, c': Snap)
    requires Exact(cfg, c) && e.Opcode? && Advance(cfg, c, e) == Some(c')
    ensures Exact(cfg, c')
  {
    var s1, j1 := OpcodeParts(cfg, c, e, c');
    UnwindExact(cfg, c.s, c.j, e.depth, s1);
    DepthsAgree(s1, j1);
    SettleExact(cfg, s1, j1, e, c'.s);
  }

  lemma ExitExact(cfg: Config, c: Snap, e: Event, c': Snap)
    requires Exact(cfg, c) && e.Exit? && Advance(cfg, c, e) == Some(c')
    ensures Exact(cfg, c')
  {
    var s1 := Spend(c.s, e.gasUsed);
    var j1 := Charge(c.j, e.gasUsed);
    TopChange(cfg, c.s, c.j, s1, j1);
    UnwindExact(cfg, s1, j1, e.depth, c'.s);
  }

  lemma StepExact(cfg: Config, c: Snap, e: Event, c': Snap)
    requires Exact(cfg, c) && Advance(cfg, c, e) == Some(c')
    ensures Exact(cfg, c')
  {
    match e
    case Opcode(_, _, _, _, _) => OpcodeExact(cfg, c, e, c');
    case Exit(_, _) => ExitExact(cfg, c, e, c');
    case _ =>
      QuietStep(cfg, c, e, c');
      TopChange(cfg, c.s, c.j, c'.s, c'.j);
  }

  lemma {:induction false} ExecExact(cfg: Config, c: Snap, es: seq<Event>, c': Snap)
    requires Exact(cfg, c) && Exec(cfg, c, es) == Some(c')
    ensures Exact(cfg, c')
    decreases |es|
  {
    if es != [] {
      var c1 := Advance(cfg, c, es[0]).value;
      StepExact(cfg, c, es[0], c1);
      ExecExact(cfg, c1, es[1..], c');
    }
  }

  /**
   Broadcast exactness. After any run of a fresh host the k-th broadcast describes the k-th closed frame
   that was opened under a broadcast by CALL, CREATE or CREATE2, there are no others, and every frame of
   the run is either live or closed, exactly once.
   */
  lemma BroadcastExactness(cfg: Config, s: State, es: seq<Event>, c: Snap)
    requires Fresh(s) && Exec(cfg, Snap(s, EMPTY_JOURNAL), es) == Some(c)
    ensures var ids := ReportedIds(c.j.births, c.j.closed);
            && |c.s.broadcasts| == |ids|
            && forall k :: 0 <= k < |ids| ==> Describes(cfg, c.s.broadcasts[k], c.j.births[ids[k]])
    ensures forall id: nat :: multiset(c.j.closed)[id] + multiset(c.j.live)[id] == if id < |c.j.births| then 1 else 0
  {
    ExecExact(cfg, Snap(s, EMPTY_JOURNAL), es, c);
    forall id: nat
      ensures multiset(c.j.closed)[id] + multiset(c.j.live)[id] == if id < |c.j.births| then 1 else 0
    {
      SerialsOnce(|c.j.births|, id);
      assert (multiset(c.j.closed) + multiset(c.j.live))[id] == Serials(|c.j.births|)[id];
    }
  }
}
