/**
 What is in force, from the calls into the host alone. A ledger never looks at the host: it is kept from the
 events of a run, and says for every frame on the stack which opcode it ran last, which salt its last CREATE2
 had, and which prank or broadcast was ordered for it and neither stopped nor used up; and the same, for every
 frame that ever appeared, of the frame below it at that moment. Over every run the host agrees with it.
 */
module Ledgers {
  import opened Basics
  import opened CallFrames

  /** The arguments of a StartPrank. */
  datatype Order = Order(sender: Option<Address>, origin: Option<Address>, repeats: bool, broadcast: bool)

  /** A frame: where it runs and as whom, its last opcode, the salt of its last CREATE2, and the order in force. */
  datatype Note = Note(depth: int, self: Address, op: Byte, salt: Salt, order: Option<Order>)

  /** A frame when it appeared: its scope, and the last opcode, salt and order of the frame below, if any. */
  datatype Arrival = Arrival(depth: int, scope: Scope, op: Byte, salt: Salt, order: Option<Order>)

  datatype Ledger = Ledger(notes: seq<Note>, arrivals: seq<Arrival>)

  const BLANK := Ledger([], [])

  function TopNote(notes: seq<Note>): Note
    requires notes != []
  {
    notes[|notes| - 1]
  }

  function SetTopNote(notes: seq<Note>, p: Note): seq<Note> {
    if notes == [] then [] else notes[|notes| - 1 := p]
  }

  /** The top frame is left: an order of the frame below that does not repeat has had its sub-call. */
  function LeaveTop(notes: seq<Note>): seq<Note> {
    var n := |notes|;
    if n <= 1 then []
    else
      var p := notes[n - 2];
      notes[..n - 2] + [if p.order.Some? && !p.order.value.repeats then p.(order := None) else p]
  }

  /** Every frame deeper than `depth` is left, from the top. */
  function Leave(notes: seq<Note>, depth: int): seq<Note>
    decreases |notes|
  {
    if notes == [] || TopNote(notes).depth <= depth then notes else Leave(LeaveTop(notes), depth)
  }

  function ArrivalOn(notes: seq<Note>, depth: int, scope: Scope): Arrival {
    if notes == [] then Arrival(depth, scope, 0, 0, None)
    else Arrival(depth, scope, TopNote(notes).op, TopNote(notes).salt, TopNote(notes).order)
  }

  /** The ledger after one more event: an order of the other kind refuses a new one, one of the same is replaced. */
  function Heed(l: Ledger, e: Event): Ledger {
    match e
    case Opcode(_, op, depth, scope, salt) =>
      var notes := Leave(l.notes, depth);
      if notes == [] || TopNote(notes).depth < depth then
        Ledger(notes + [Note(depth, scope.self, op, if op == CREATE2 then salt else 0, None)],
               l.arrivals + [ArrivalOn(notes, depth, scope)])
      else
        var p := TopNote(notes);
        l.(notes := SetTopNote(notes, p.(op := op, salt := if op == CREATE2 then salt else p.salt)))
    case Exit(depth, _) => l.(notes := Leave(l.notes, depth))
    case StartPrank(sender, origin, repeats, broadcast) =>
      if l.notes == [] || (TopNote(l.notes).order.Some? && TopNote(l.notes).order.value.broadcast != broadcast) then l
      else l.(notes := SetTopNote(l.notes, TopNote(l.notes).(order := Some(Order(sender, origin, repeats, broadcast)))))
    case EndPrank(broadcast) =>
      if l.notes == [] || TopNote(l.notes).order.None? || TopNote(l.notes).order.value.broadcast != broadcast then l
      else l.(notes := SetTopNote(l.notes, TopNote(l.notes).(order := None)))
    case _ => l
  }

  function LedgerOf(l: Ledger, es: seq<Event>): Ledger
    decreases |es|
  {
    if es == [] then l else LedgerOf(Heed(l, es[0]), es[1..])
  }

  // ----- the host agrees -----

  function OrderOf(prank: Option<Prank>): Option<Order> {
    if prank.None? then None
    else Some(Order(prank.value.sender, prank.value.origin, prank.value.repeats, prank.value.broadcast))
  }

  predicate Agrees(f: Frame, p: Note) {
    && f.depth == p.depth && f.ctx.self == p.self && f.lastOp == p.op && f.lastSalt == p.salt
    && OrderOf(f.prank) == p.order
  }

  ghost predicate AllAgree(stack: seq<Frame>, notes: seq<Note>) {
    |notes| == |stack| && forall i :: 0 <= i < |stack| ==> Agrees(stack[i], notes[i])
  }

  lemma TopAgrees(stack: seq<Frame>, notes: seq<Note>)
    requires AllAgree(stack, notes) && stack != []
    ensures Agrees(stack[|stack| - 1], TopNote(notes))
  {
  }

  lemma SetTopAgrees(stack: seq<Frame>, notes: seq<Note>, f: Frame, p: Note)
    requires AllAgree(stack, notes) && stack != [] && Agrees(f, p)
    ensures AllAgree(stack[|stack| - 1 := f], SetTopNote(notes, p))
  {
  }

  lemma PushAgrees(stack: seq<Frame>, notes: seq<Note>, f: Frame, p: Note)
    requires AllAgree(stack, notes) && Agrees(f, p)
    ensures AllAgree(stack + [f], notes + [p])
  {
  }

  lemma PopAgrees(cfg: Config, s: State, notes: seq<Note>, s': State)
    requires s.stack != [] && AllAgree(s.stack, notes) && Pop(cfg, s) == Some(s')
    ensures AllAgree(s'.stack, LeaveTop(notes))
  {
    forall i | 0 <= i < |s'.stack| ensures Agrees(s'.stack[i], LeaveTop(notes)[i]) {
      assert Agrees(s.stack[i], notes[i]);
    }
  }

  lemma {:induction false} UnwindAgrees(cfg: Config, s: State, notes: seq<Note>, depth: int, s': State)
    requires AllAgree(s.stack, notes) && Unwind(cfg, s, depth) == Some(s')
    ensures AllAgree(s'.stack, Leave(notes, depth))
    decreases |s.stack|
  {
    if s.stack != [] {
      TopAgrees(s.stack, notes);
      if Top(s).depth > depth {
        var s1 := Pop(cfg, s).value;
        PopAgrees(cfg, s, notes, s1);
        UnwindAgrees(cfg, s1, LeaveTop(notes), depth, s');
      }
    }
  }

  /** An opcode on a stack that was unwound to its depth. */
  lemma SettleAgrees(s: State, l: Ledger, notes: seq<Note>, e: Event, s': State)
    requires e.Opcode? && notes == Leave(l.notes, e.depth) && AllAgree(s.stack, notes)
    requires s' == Settle(s, e.pc, e.op, e.depth, e.scope, e.salt)
    ensures AllAgree(s'.stack, Heed(l, e).notes)
  {
    if s.stack != [] {
      TopAgrees(s.stack, notes);
    }
    if s.stack == [] || Top(s).depth < e.depth {
      var f := Tick(NewFrame(s, e.depth, e.pc, e.op, e.scope), e.pc, e.op, e.salt);
      assert s'.stack == s.stack + [f];
      PushAgrees(s.stack, notes, f, TopNote(Heed(l, e).notes));
    } else {
      var p := TopNote(notes).(op := e.op, salt := if e.op == CREATE2 then e.salt else TopNote(notes).salt);
      SetTopAgrees(s.stack, notes, Tick(Top(s), e.pc, e.op, e.salt), p);
    }
  }

  lemma OpcodeAgrees(cfg: Config, s: State, l: Ledger, e: Event, s': State)
    requires AllAgree(s.stack, l.notes) && e.Opcode? && Step(cfg, s, e) == Some(s')
    ensures AllAgree(s'.stack, Heed(l, e).notes)
  {
    var s1 := Unwind(cfg, s, e.depth).value;
    UnwindAgrees(cfg, s, l.notes, e.depth, s1);
    SettleAgrees(s1, l, Leave(l.notes, e.depth), e, s');
  }

  lemma ExitAgrees(cfg: Config, s: State, l: Ledger, e: Event, s': State)
    requires AllAgree(s.stack, l.notes) && e.Exit? && Step(cfg, s, e) == Some(s')
    ensures AllAgree(s'.stack, Heed(l, e).notes)
  {
    TopAgrees(s.stack, l.notes);
    SetTopAgrees(s.stack, l.notes, Top(Spend(s, e.gasUsed)), TopNote(l.notes));
    UnwindAgrees(cfg, Spend(s, e.gasUsed), l.notes, e.depth, s');
  }

  lemma PrankAgrees(cfg: Config, s: State, l: Ledger, e: Event, s': State)
    requires AllAgree(s.stack, l.notes) && (e.StartPrank? || e.EndPrank?) && Step(cfg, s, e) == Some(s')
    ensures AllAgree(s'.stack, Heed(l, e).notes)
  {
    if s.stack != [] {
      TopAgrees(s.stack, l.notes);
      if s'.stack != s.stack {
        SetTopAgrees(s.stack, l.notes, Top(s'), TopNote(Heed(l, e).notes));
      }
    }
  }

  lemma StepAgrees(cfg: Config, s: State, l: Ledger, e: Event, s': State)
    requires AllAgree(s.stack, l.notes) && Step(cfg, s, e) == Some(s')
    ensures AllAgree(s'.stack, Heed(l, e).notes)
  {
    match e
    case Opcode(_, _, _, _, _) => OpcodeAgrees(cfg, s, l, e, s');
    case Exit(_, _) => ExitAgrees(cfg, s, l, e, s');
    case StartPrank(_, _, _, _) => PrankAgrees(cfg, s, l, e, s');
    case EndPrank(_) => PrankAgrees(cfg, s, l, e, s');
    case _ =>
  }

  lemma {:induction false} RunAgrees(cfg: Config, s: State, l: Ledger, es: seq<Event>, s': State)
    requires AllAgree(s.stack, l.notes) && Run(cfg, s, es) == Some(s')
    ensures AllAgree(s'.stack, LedgerOf(l, es).notes)
    decreases |es|
  {
    if es != [] {
      var s1 := Step(cfg, s, es[0]).value;
      StepAgrees(cfg, s, l, es[0], s1);
      RunAgrees(cfg, s1, Heed(l, es[0]), es[1..], s');
    }
  }

  /**
   What is in force. After any run, whatever the hooks are called with, the prank or broadcast of every frame on
   the stack is the order that the events left it with, and its last opcode and salt are those of its last
   opcode and of its last CREATE2.
   */
  lemma OrdersInForce(cfg: Config, s: State, es: seq<Event>, s': State, i: nat)
    requires s.stack == [] && Run(cfg, s, es) == Some(s') && i < |s'.stack|
    ensures |LedgerOf(BLANK, es).notes| == |s'.stack|
    ensures var p := LedgerOf(BLANK, es).notes[i];
            && OrderOf(s'.stack[i].prank) == p.order
            && s'.stack[i].depth == p.depth && s'.stack[i].lastOp == p.op && s'.stack[i].lastSalt == p.salt
  {
    RunAgrees(cfg, s, BLANK, es, s');
    assert Agrees(s'.stack[i], LedgerOf(BLANK, es).notes[i]);
  }
}
