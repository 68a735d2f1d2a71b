/** When a call into the host panics, over every run: exactly on the mismatches and the reports listed here. */
module Panics {
  import opened Basics
  import opened CallFrames
  import opened StackShape

  /**
   A sub-call of a broadcasting frame that cannot be reported: neither a CALL, nor ignored, nor a deployment to the
   address that follows from its sender.
   */
  predicate Unreportable(cfg: Config, parent: Frame, child: Frame) {
    && parent.prank.Some? && parent.prank.value.broadcast
    && parent.lastOp != CALL && parent.lastOp != DELEGATECALL && parent.lastOp != STATICCALL
    && (parent.lastOp == CREATE ==>
          cfg.createAddress(child.ctx.caller, Minus1(child.callerNonce)) != child.ctx.self)
    && (parent.lastOp == CREATE2 ==>
          var initCode := if child.ctx.isDeployment then child.ctx.code else child.ctx.input;
          cfg.create2Address(child.ctx.caller, parent.lastSalt, initCode) != child.ctx.self)
  }

  /** Frame `i` cannot be reported when it is left. */
  predicate Fails(cfg: Config, stack: seq<Frame>, i: nat) {
    0 < i < |stack| && Unreportable(cfg, stack[i - 1], stack[i])
  }

  /** One of the frames from the k-th on cannot be reported. */
  ghost predicate SomeFail(cfg: Config, stack: seq<Frame>, k: nat) {
    exists i :: k <= i < |stack| && Fails(cfg, stack, i)
  }

  lemma PopPanics(cfg: Config, s: State)
    requires s.stack != []
    ensures Pop(cfg, s).None? <==> Fails(cfg, s.stack, |s.stack| - 1)
  {
  }

  /** The other frames fail, or not, as they did before. */
  lemma PopKeepsFails(cfg: Config, s: State, s': State, i: nat)
    requires s.stack != [] && Pop(cfg, s) == Some(s') && i < |s'.stack|
    ensures Fails(cfg, s'.stack, i) <==> Fails(cfg, s.stack, i)
  {
  }

  lemma FailsBelow(cfg: Config, s: State, s': State, k: nat)
    requires s.stack != [] && Pop(cfg, s) == Some(s') && k < |s.stack|
    ensures SomeFail(cfg, s'.stack, k) <==> SomeFail(cfg, s.stack, k)
  {
    PopPanics(cfg, s);
    forall i | 0 <= i < |s'.stack| ensures Fails(cfg, s'.stack, i) <==> Fails(cfg, s.stack, i) {
      PopKeepsFails(cfg, s, s', i);
    }
  }

  lemma {:induction false} UnwindPanics(cfg: Config, s: State, depth: int, k: nat)
    requires Increasing(s.stack) && Cut(s.stack, depth, k)
    ensures Unwind(cfg, s, depth).None? <==> SomeFail(cfg, s.stack, k)
    decreases |s.stack|
  {
    if s.stack == [] || Top(s).depth <= depth {
      CutAll(s.stack, depth, k);
    } else {
      CutBelow(s.stack, depth, k);
      PopPanics(cfg, s);
      if Pop(cfg, s).Some? {
        var s1 := Pop(cfg, s).value;
        PopShape(cfg, s, s1);
        FailsBelow(cfg, s, s1, k);
        UnwindPanics(cfg, s1, depth, k);
      }
    }
  }

  lemma SpendKeepsFails(cfg: Config, s: State, gasUsed: U64, k: nat)
    requires s.stack != []
    ensures SomeFail(cfg, Spend(s, gasUsed).stack, k) <==> SomeFail(cfg, s.stack, k)
  {
    forall i | 0 <= i < |s.stack| ensures Fails(cfg, Spend(s, gasUsed).stack, i) <==> Fails(cfg, s.stack, i) {
    }
  }

  /** Another scope runs at the depth of the innermost frame that stays. */
  predicate OtherScope(stack: seq<Frame>, k: nat, depth: int, scope: Scope) {
    0 < k <= |stack| && stack[k - 1].depth == depth && stack[k - 1].ctx.id != scope.id
  }

  lemma SettledScope(cfg: Config, s: State, e: Event, k: nat, s1: State)
    requires Increasing(s.stack) && e.Opcode? && Cut(s.stack, e.depth, k) && Unwind(cfg, s, e.depth) == Some(s1)
    ensures Step(cfg, s, e).None? <==> OtherScope(s.stack, k, e.depth, e.scope)
  {
    UnwindShape(cfg, s, e.depth, k, s1);
    PrefixDepths(s.stack, k);
    assert k > 0 ==> Top(s1).ctx == s.stack[k - 1].ctx;
    SettleShape(s1, e.pc, e.op, e.depth, e.scope, e.salt, Settle(s1, e.pc, e.op, e.depth, e.scope, e.salt));
  }

  lemma OpcodePanics(cfg: Config, s: State, e: Event, k: nat)
    requires Increasing(s.stack) && e.Opcode? && Cut(s.stack, e.depth, k)
    ensures Step(cfg, s, e).None? <==> SomeFail(cfg, s.stack, k) || OtherScope(s.stack, k, e.depth, e.scope)
  {
    UnwindPanics(cfg, s, e.depth, k);
    if Unwind(cfg, s, e.depth).Some? {
      SettledScope(cfg, s, e, k, Unwind(cfg, s, e.depth).value);
    }
  }

  lemma ExitPanics(cfg: Config, s: State, e: Event, k: nat)
    requires Increasing(s.stack) && e.Exit? && Cut(s.stack, e.depth, k)
    ensures Step(cfg, s, e).None? <==> s.stack == [] || SomeFail(cfg, s.stack, k)
  {
    if s.stack != [] {
      SpendShape(s, e.gasUsed, e.depth, k);
      UnwindPanics(cfg, Spend(s, e.gasUsed), e.depth, k);
      SpendKeepsFails(cfg, s, e.gasUsed, k);
    }
  }

  /**
   After any run the next call into the host panics exactly if it enters a call by another opcode than the frame
   on top ran last, under a prank; or leaves a call when no frame is on the stack; or leaves a frame, one of those
   deeper than the event, that cannot be reported; or runs an opcode in another scope than the frame at its depth.
   */
  lemma PanicsIff(cfg: Config, s0: State, es: seq<Event>, s: State, e: Event)
    requires s0.stack == [] && Run(cfg, s0, es) == Some(s)
    ensures Step(cfg, s, e).None? <==>
            match e
            case Enter(_, typ, _, _) => s.stack != [] && Top(s).prank.Some? && Top(s).lastOp != typ
            case Exit(depth, _) => s.stack == [] || SomeFail(cfg, s.stack, Kept(s.stack, depth))
            case Opcode(_, _, depth, scope, _) =>
              || SomeFail(cfg, s.stack, Kept(s.stack, depth))
              || OtherScope(s.stack, Kept(s.stack, depth), depth, scope)
            case _ => false
  {
    RunShape(cfg, s0, es, s);
    match e
    case Opcode(_, _, depth, _, _) => OpcodePanics(cfg, s, e, Kept(s.stack, depth));
    case Exit(depth, _) => ExitPanics(cfg, s, e, Kept(s.stack, depth));
    case _ =>
  }
}
