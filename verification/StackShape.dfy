/** The shape of the shadow call stack, under any sequence of hook calls at any depths. */
module StackShape {
  import opened Basics
  import opened CallFrames

  predicate Deeper(stack: seq<Frame>, i: nat, k: nat) {
    i < |stack| && k < |stack| && stack[i].depth < stack[k].depth
  }

  ghost predicate Increasing(stack: seq<Frame>) {
    forall i, k :: 0 <= i < k < |stack| ==> Deeper(stack, i, k)
  }

  /** Frames at the same depths as before. */
  lemma SameDepths(stack: seq<Frame>, stack': seq<Frame>)
    requires Increasing(stack) && |stack'| <= |stack|
    requires forall i :: 0 <= i < |stack'| ==> stack'[i].depth == stack[i].depth
    ensures Increasing(stack')
  {
    forall i, k | 0 <= i < k < |stack'| ensures Deeper(stack', i, k) {
      assert Deeper(stack, i, k);
    }
  }

  /** The frames below `k` are no deeper than `depth` and the others are deeper, on an increasing stack. */
  predicate Cut(stack: seq<Frame>, depth: int, k: nat) {
    && k <= |stack|
    && (k < |stack| ==> stack[k].depth > depth)
    && (k > 0 ==> stack[k - 1].depth <= depth)
  }

  /** How many frames, from the bottom, are no deeper than `depth`. */
  function Kept(stack: seq<Frame>, depth: int): (k: nat)
    ensures Cut(stack, depth, k)
  {
    if stack == [] || stack[0].depth > depth then 0 else 1 + Kept(stack[1..], depth)
  }

  /** The frames left after unwinding: a prefix, its last frame told that a sub-call is over. */
  function Prefix(stack: seq<Frame>, k: nat): seq<Frame>
    requires k <= |stack|
  {
    if k == 0 || k == |stack| then stack[..k] else stack[..k - 1] + [AfterSubCall(stack[k - 1])]
  }

  lemma PopShape(cfg: Config, s: State, s': State)
    requires s.stack != [] && Increasing(s.stack) && Pop(cfg, s) == Some(s')
    ensures s'.stack == Prefix(s.stack, |s.stack| - 1)
    ensures Increasing(s'.stack)
    ensures s'.nonces == s.nonces && s'.allowed == s.allowed && s'.nextPrank == s.nextPrank
    ensures s.broadcasts <= s'.broadcasts
  {
    SameDepths(s.stack, s'.stack);
  }

  lemma PrefixOfPrefix(stack: seq<Frame>, m: nat, k: nat)
    requires k <= m < |stack|
    ensures Prefix(Prefix(stack, m), k) == Prefix(stack, k)
  {
  }

  lemma CutBelow(stack: seq<Frame>, depth: int, k: nat)
    requires stack != [] && Cut(stack, depth, k) && stack[|stack| - 1].depth > depth
    ensures k < |stack| && Cut(Prefix(stack, |stack| - 1), depth, k)
  {
  }

  lemma CutAll(stack: seq<Frame>, depth: int, k: nat)
    requires Increasing(stack) && Cut(stack, depth, k) && (stack == [] || stack[|stack| - 1].depth <= depth)
    ensures k == |stack| && Prefix(stack, k) == stack
  {
    forall i | 0 <= i < |stack| ensures stack[i].depth <= depth {
      if i < |stack| - 1 {
        assert Deeper(stack, i, |stack| - 1);
      }
    }
  }

  /** Unwinding to a depth keeps exactly the frames no deeper, and changes nothing but what leaving calls does. */
  lemma {:induction false} UnwindShape(cfg: Config, s: State, depth: int, k: nat, s': State)
    requires Increasing(s.stack) && Cut(s.stack, depth, k)
    requires Unwind(cfg, s, depth) == Some(s')
    ensures s'.stack == Prefix(s.stack, k)
    ensures Increasing(s'.stack)
    ensures s'.nonces == s.nonces && s'.allowed == s.allowed && s'.nextPrank == s.nextPrank
    ensures s.broadcasts <= s'.broadcasts
    decreases |s.stack|
  {
    var n := |s.stack|;
    if n == 0 || Top(s).depth <= depth {
      CutAll(s.stack, depth, k);
    } else {
      var s1 := Pop(cfg, s).value;
      PopShape(cfg, s, s1);
      CutBelow(s.stack, depth, k);
      UnwindShape(cfg, s1, depth, k, s');
      PrefixOfPrefix(s.stack, n - 1, k);
    }
  }

  lemma SettleShape(s: State, pc: U64, op: Byte, depth: int, scope: Scope, salt: Salt, s': State)
    requires Increasing(s.stack)
    requires s.stack != [] ==> Top(s).depth <= depth
    requires s' == Settle(s, pc, op, depth, scope, salt)
    ensures var n := if s.stack != [] && Top(s).depth == depth then |s.stack| - 1 else |s.stack|;
            && |s'.stack| == n + 1 && s'.stack[..n] == s.stack[..n]
            && Top(s') == Tick(if n == |s.stack| then NewFrame(s, depth, pc, op, scope) else Top(s), pc, op, salt)
    ensures Increasing(s'.stack)
    ensures s' == s.(stack := s'.stack, allowed := s'.allowed)
  {
    var n := if s.stack != [] && Top(s).depth == depth then |s.stack| - 1 else |s.stack|;
    assert forall i :: 0 <= i < n ==> s'.stack[i] == s.stack[i];
    if s.stack != [] && Top(s).depth == depth {
      SameDepths(s.stack, s'.stack);
    } else {
      Higher(s.stack, Top(s'), s'.stack);
    }
  }

  lemma Higher(stack: seq<Frame>, f: Frame, stack': seq<Frame>)
    requires Increasing(stack) && stack' == stack + [f] && (stack != [] ==> stack[|stack| - 1].depth < f.depth)
    ensures Increasing(stack')
  {
    forall i, k | 0 <= i < k < |stack'| ensures Deeper(stack', i, k) {
      if k < |stack| {
        assert Deeper(stack, i, k);
      } else if i < |stack| - 1 {
        assert Deeper(stack, i, |stack| - 1);
      }
    }
  }

  lemma PrefixDepths(stack: seq<Frame>, k: nat)
    requires k <= |stack|
    ensures |Prefix(stack, k)| == k && (k > 0 ==> Prefix(stack, k)[k - 1].depth == stack[k - 1].depth)
  {
  }

  lemma PrefixKeeps(stack: seq<Frame>, k: nat)
    requires k < |stack|
    ensures var p := Prefix(stack, k + 1);
            |p| == k + 1 && p[..k] == stack[..k] && p[k].ctx == stack[k].ctx && p[k].depth == stack[k].depth
  {
  }

  /**
   After an opcode at `depth` the top frame is at exactly that depth and is the scope that ran. A frame
   that was at that depth stays, with everything below it.
   */
  lemma OpcodeSameDepth(cfg: Config, s: State, pc: U64, op: Byte, depth: int, scope: Scope, salt: Salt,
                        k: nat, s': State)
    requires Increasing(s.stack) && Cut(s.stack, depth, k + 1) && s.stack[k].depth == depth
    requires OnOpcode(cfg, s, pc, op, depth, scope, salt) == Some(s')
    ensures Increasing(s'.stack)
    ensures |s'.stack| == k + 1 && s'.stack[..k] == s.stack[..k]
    ensures s'.stack[k].depth == depth && s'.stack[k].ctx == s.stack[k].ctx && s.stack[k].ctx.id == scope.id
    ensures s'.stack[k].lastOp == op && s'.stack[k].lastPC == pc
  {
    var s1 := Unwind(cfg, s, depth).value;
    UnwindShape(cfg, s, depth, k + 1, s1);
    PrefixKeeps(s.stack, k);
    SettleShape(s1, pc, op, depth, scope, salt, s');
  }

  /**
   With no frame at that depth a new one appears on the shallower frames, which are the ones there were,
   in order; the prank of the innermost of them is used up if a sub-call of it was left.
   */
  lemma OpcodeNewDepth(cfg: Config, s: State, pc: U64, op: Byte, depth: int, scope: Scope, salt: Salt,
                       k: nat, s': State)
    requires Increasing(s.stack) && Cut(s.stack, depth, k) && (k > 0 ==> s.stack[k - 1].depth < depth)
    requires OnOpcode(cfg, s, pc, op, depth, scope, salt) == Some(s')
    ensures Increasing(s'.stack)
    ensures |s'.stack| == k + 1 && s'.stack[..k] == Prefix(s.stack, k)
    ensures s'.stack[k].depth == depth && s'.stack[k].ctx == scope && s'.stack[k].prank == None
    ensures s'.stack[k].lastOp == op && s'.stack[k].lastPC == pc
    ensures s'.stack[k].callerNonce == NonceOf(s.nonces, scope.caller)
  {
    var s1 := Unwind(cfg, s, depth).value;
    UnwindShape(cfg, s, depth, k, s1);
    PrefixDepths(s.stack, k);
    SettleShape(s1, pc, op, depth, scope, salt, s');
    assert s1.stack[..k] == s1.stack;
  }

  /** Charging gas to the top frame changes no depth. */
  lemma SpendShape(s: State, gasUsed: U64, depth: int, k: nat)
    requires s.stack != [] && Increasing(s.stack) && Cut(s.stack, depth, k)
    ensures Increasing(Spend(s, gasUsed).stack) && Cut(Spend(s, gasUsed).stack, depth, k)
  {
    SameDepths(s.stack, Spend(s, gasUsed).stack);
  }

  lemma OpcodeShape(cfg: Config, s: State, pc: U64, op: Byte, depth: int, scope: Scope, salt: Salt, s': State)
    requires Increasing(s.stack) && OnOpcode(cfg, s, pc, op, depth, scope, salt) == Some(s')
    ensures Increasing(s'.stack)
  {
    var k := Kept(s.stack, depth);
    if k > 0 && s.stack[k - 1].depth == depth {
      OpcodeSameDepth(cfg, s, pc, op, depth, scope, salt, k - 1, s');
    } else {
      OpcodeNewDepth(cfg, s, pc, op, depth, scope, salt, k, s');
    }
  }

  lemma ExitShape(cfg: Config, s: State, depth: int, gasUsed: U64, s': State)
    requires Increasing(s.stack) && OnExit(cfg, s, depth, gasUsed) == Some(s')
    ensures Increasing(s'.stack)
  {
    var k := Kept(s.stack, depth);
    SpendShape(s, gasUsed, depth, k);
    UnwindShape(cfg, Spend(s, gasUsed), depth, k, s');
  }

  lemma StepShape(cfg: Config, s: State, e: Event, s': State)
    requires Increasing(s.stack) && Step(cfg, s, e) == Some(s')
    ensures Increasing(s'.stack)
  {
    match e
    case Opcode(pc, op, depth, scope, salt) => OpcodeShape(cfg, s, pc, op, depth, scope, salt, s');
    case Exit(depth, gasUsed) => ExitShape(cfg, s, depth, gasUsed, s');
    case _ => SameDepths(s.stack, s'.stack);
  }

  /** Frame depths stay strictly increasing over every run. */
  lemma {:induction false} RunShape(cfg: Config, s: State, es: seq<Event>, s': State)
    requires Increasing(s.stack) && Run(cfg, s, es) == Some(s')
    ensures Increasing(s'.stack)
    decreases |es|
  {
    if es != [] {
      var s1 := Step(cfg, s, es[0]).value;
      StepShape(cfg, s, es[0], s1);
      RunShape(cfg, s1, es[1..], s');
    }
  }
}
