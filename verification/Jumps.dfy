/**
 What a frame remembers of the opcodes it ran, over every run: the last one, and the program counters that its
 last five jumps came from.
 */
module Jumps {
  import opened Basics
  import opened CallFrames
  import opened StackShape

  /** The opcodes that a frame ran, the last one outermost. */
  datatype Trail = First(pc: U64, op: Byte) | Then(before: Trail, pc: U64, op: Byte)

  /** Where each JUMPDEST was reached from; a frame that starts at one reached it from itself. */
  function JumpSources(trail: Trail): seq<U64> {
    match trail
    case First(pc, op) => if op == JUMPDEST then [pc] else []
    case Then(before, _, op) => JumpSources(before) + if op == JUMPDEST then [before.pc] else []
  }

  function LastFive(pcs: seq<U64>): seq<U64> {
    if |pcs| > 5 then pcs[|pcs| - 5..] else pcs
  }

  predicate Remembers(f: Frame, trail: Trail) {
    f.lastPC == trail.pc && f.lastOp == trail.op && f.lastJumps == LastFive(JumpSources(trail))
  }

  ghost predicate AllRemember(stack: seq<Frame>, trails: seq<Trail>) {
    |trails| == |stack| && forall i :: 0 <= i < |trails| ==> Remembers(stack[i], trails[i])
  }

  /** The opcodes that each frame on the stack ran, after one more call into the host. */
  function Follow(s: State, trails: seq<Trail>, e: Event): seq<Trail>
    requires |trails| == |s.stack|
  {
    match e
    case Opcode(pc, op, depth, _, _) =>
      var k := Kept(s.stack, depth);
      if k > 0 && s.stack[k - 1].depth == depth then trails[..k - 1] + [Then(trails[k - 1], pc, op)]
      else trails[..k] + [First(pc, op)]
    case Exit(depth, _) => trails[..Kept(s.stack, depth)]
    case _ => trails
  }

  lemma TickRemembers(f: Frame, trail: Trail, pc: U64, op: Byte, salt: Salt)
    requires Remembers(f, trail)
    ensures Remembers(Tick(f, pc, op, salt), Then(trail, pc, op))
  {
    if op == JUMPDEST {
      LastFiveMore(JumpSources(trail), f.lastPC);
    }
  }

  lemma LastFiveMore(pcs: seq<U64>, pc: U64)
    ensures RememberJump(LastFive(pcs), pc) == LastFive(pcs + [pc])
  {
  }

  /** Unwinding changes nothing that the frames that stay remember. */
  lemma PrefixRemembers(stack: seq<Frame>, trails: seq<Trail>, k: nat)
    requires AllRemember(stack, trails) && k <= |stack|
    ensures AllRemember(Prefix(stack, k), trails[..k]) && AllRemember(stack[..k], trails[..k])
  {
    forall i | 0 <= i < k
      ensures Remembers(Prefix(stack, k)[i], trails[..k][i]) && Remembers(stack[..k][i], trails[..k][i])
    {
      assert Remembers(stack[i], trails[i]);
    }
  }

  /** One more frame. */
  lemma MoreRemember(stack: seq<Frame>, trails: seq<Trail>, f: Frame, trail: Trail)
    requires AllRemember(stack, trails) && Remembers(f, trail)
    ensures AllRemember(stack + [f], trails + [trail])
  {
  }

  lemma NewRemembers(s: State, e: Event)
    requires e.Opcode?
    ensures Remembers(Tick(NewFrame(s, e.depth, e.pc, e.op, e.scope), e.pc, e.op, e.salt), First(e.pc, e.op))
  {
  }

  /** An opcode on a stack that was unwound to its depth. */
  lemma SettleRemembers(s: State, trails: seq<Trail>, e: Event, s': State)
    requires AllRemember(s.stack, trails) && e.Opcode? && (s.stack != [] ==> Top(s).depth <= e.depth)
    requires s' == Settle(s, e.pc, e.op, e.depth, e.scope, e.salt)
    ensures s.stack != [] && Top(s).depth == e.depth ==>
              AllRemember(s'.stack, trails[..|trails| - 1] + [Then(trails[|trails| - 1], e.pc, e.op)])
    ensures s.stack == [] || Top(s).depth < e.depth ==> AllRemember(s'.stack, trails + [First(e.pc, e.op)])
  {
    var n := |trails|;
    if s.stack != [] && Top(s).depth == e.depth {
      assert s'.stack == s.stack[..n - 1] + [Tick(Top(s), e.pc, e.op, e.salt)];
      PrefixRemembers(s.stack, trails, n - 1);
      TickRemembers(Top(s), trails[n - 1], e.pc, e.op, e.salt);
      MoreRemember(s.stack[..n - 1], trails[..n - 1], Top(s'), Then(trails[n - 1], e.pc, e.op));
    } else {
      assert s'.stack == s.stack + [Tick(NewFrame(s, e.depth, e.pc, e.op, e.scope), e.pc, e.op, e.salt)];
      NewRemembers(s, e);
      MoreRemember(s.stack, trails, Top(s'), First(e.pc, e.op));
    }
  }

  lemma UnwindRemembers(cfg: Config, s: State, trails: seq<Trail>, depth: int, k: nat, s': State)
    requires Increasing(s.stack) && AllRemember(s.stack, trails) && Cut(s.stack, depth, k)
    requires Unwind(cfg, s, depth) == Some(s')
    ensures AllRemember(s'.stack, trails[..k]) && |s'.stack| == k
    ensures k > 0 ==> Top(s').depth == s.stack[k - 1].depth
  {
    UnwindShape(cfg, s, depth, k, s');
    PrefixRemembers(s.stack, trails, k);
  }

  lemma SettleTrails(s: State, trails: seq<Trail>, k: nat, e: Event, s': State)
    requires k <= |trails| && AllRemember(s.stack, trails[..k]) && e.Opcode? && (k > 0 ==> Top(s).depth <= e.depth)
    requires s' == Settle(s, e.pc, e.op, e.depth, e.scope, e.salt)
    ensures k > 0 && Top(s).depth == e.depth ==>
              AllRemember(s'.stack, trails[..k - 1] + [Then(trails[k - 1], e.pc, e.op)])
    ensures k == 0 || Top(s).depth < e.depth ==> AllRemember(s'.stack, trails[..k] + [First(e.pc, e.op)])
  {
    var kept := trails[..k];
    SettleRemembers(s, kept, e, s');
    if k > 0 {
      assert kept[..k - 1] == trails[..k - 1] && kept[k - 1] == trails[k - 1];
    }
  }

  lemma UnwoundTrails(cfg: Config, s: State, trails: seq<Trail>, e: Event, s1: State)
    requires Increasing(s.stack) && AllRemember(s.stack, trails) && e.Opcode? && Unwind(cfg, s, e.depth) == Some(s1)
    ensures AllRemember(s1.stack, trails[..Kept(s.stack, e.depth)])
    ensures var k := Kept(s.stack, e.depth);
            |s1.stack| == k && (k > 0 ==> Top(s1).depth == s.stack[k - 1].depth <= e.depth)
  {
    UnwindRemembers(cfg, s, trails, e.depth, Kept(s.stack, e.depth), s1);
  }

  lemma SettledTrails(s: State, trails: seq<Trail>, e: Event, s1: State, s': State)
    requires |trails| == |s.stack| && e.Opcode? && s' == Settle(s1, e.pc, e.op, e.depth, e.scope, e.salt)
    requires AllRemember(s1.stack, trails[..Kept(s.stack, e.depth)])
    requires var k := Kept(s.stack, e.depth);
             |s1.stack| == k && (k > 0 ==> Top(s1).depth == s.stack[k - 1].depth <= e.depth)
    ensures AllRemember(s'.stack, Follow(s, trails, e))
  {
    SettleTrails(s1, trails, Kept(s.stack, e.depth), e, s');
  }

  lemma OpcodeRemembers(cfg: Config, s: State, trails: seq<Trail>, e: Event, s': State)
    requires Increasing(s.stack) && AllRemember(s.stack, trails) && e.Opcode? && Step(cfg, s, e) == Some(s')
    ensures AllRemember(s'.stack, Follow(s, trails, e))
  {
    var s1 := Unwind(cfg, s, e.depth).value;
    UnwoundTrails(cfg, s, trails, e, s1);
    SettledTrails(s, trails, e, s1, s');
  }

  /** Charging gas to the top frame changes nothing that is remembered. */
  lemma SpendRemembers(s: State, trails: seq<Trail>, gasUsed: U64)
    requires s.stack != [] && AllRemember(s.stack, trails)
    ensures AllRemember(Spend(s, gasUsed).stack, trails)
  {
    forall i | 0 <= i < |s.stack| ensures Remembers(Spend(s, gasUsed).stack[i], trails[i]) {
      assert Remembers(s.stack[i], trails[i]);
    }
  }

  lemma ExitRemembers(cfg: Config, s: State, trails: seq<Trail>, e: Event, s': State)
    requires Increasing(s.stack) && AllRemember(s.stack, trails) && e.Exit? && Step(cfg, s, e) == Some(s')
    ensures AllRemember(s'.stack, Follow(s, trails, e))
  {
    var s1, k := Spend(s, e.gasUsed), Kept(s.stack, e.depth);
    SpendRemembers(s, trails, e.gasUsed);
    SpendShape(s, e.gasUsed, e.depth, k);
    UnwindRemembers(cfg, s1, trails, e.depth, k, s');
  }

  lemma QuietRemembers(cfg: Config, s: State, trails: seq<Trail>, e: Event, s': State)
    requires AllRemember(s.stack, trails) && !e.Opcode? && !e.Exit? && Step(cfg, s, e) == Some(s')
    ensures AllRemember(s'.stack, trails)
  {
    forall i | 0 <= i < |s.stack| ensures Remembers(s'.stack[i], trails[i]) {
      assert Remembers(s.stack[i], trails[i]);
    }
  }

  lemma StepRemembers(cfg: Config, s: State, trails: seq<Trail>, e: Event, s': State)
    requires Increasing(s.stack) && AllRemember(s.stack, trails) && Step(cfg, s, e) == Some(s')
    ensures AllRemember(s'.stack, Follow(s, trails, e))
  {
    match e
    case Opcode(_, _, _, _, _) => OpcodeRemembers(cfg, s, trails, e, s');
    case Exit(_, _) => ExitRemembers(cfg, s, trails, e, s');
    case _ => QuietRemembers(cfg, s, trails, e, s');
  }

  /** The opcodes that each frame on the stack ran, after a run. */
  function Trails(cfg: Config, s: State, trails: seq<Trail>, es: seq<Event>): seq<Trail>
    requires |trails| == |s.stack|
    decreases |es|
  {
    if es == [] || Step(cfg, s, es[0]).None? then trails
    else
      var s', trails' := Step(cfg, s, es[0]).value, Follow(s, trails, es[0]);
      if |trails'| != |s'.stack| then trails else Trails(cfg, s', trails', es[1..])
  }

  lemma {:induction false} RunRemembers(cfg: Config, s: State, trails: seq<Trail>, es: seq<Event>, s': State)
    requires Increasing(s.stack) && AllRemember(s.stack, trails) && Run(cfg, s, es) == Some(s')
    ensures AllRemember(s'.stack, Trails(cfg, s, trails, es))
    decreases |es|
  {
    if es != [] {
      var s1 := Step(cfg, s, es[0]).value;
      StepShape(cfg, s, es[0], s1);
      StepRemembers(cfg, s, trails, es[0], s1);
      RunRemembers(cfg, s1, Follow(s, trails, es[0]), es[1..], s');
    }
  }

  /**
   After any run, every frame on the stack remembers the last opcode it ran, and the program counters that
   preceded the last five JUMPDESTs it ran.
   */
  lemma JumpsRemembered(cfg: Config, s: State, es: seq<Event>, s': State, i: nat)
    requires s.stack == [] && Run(cfg, s, es) == Some(s') && i < |s'.stack|
    ensures |Trails(cfg, s, [], es)| == |s'.stack|
    ensures var trail := Trails(cfg, s, [], es)[i];
            && s'.stack[i].lastPC == trail.pc && s'.stack[i].lastOp == trail.op
            && s'.stack[i].lastJumps == LastFive(JumpSources(trail))
  {
    RunRemembers(cfg, s, [], es, s');
  }
}
