/**
 The host itself: a stack of call frames that the trace hooks push, pop and update in place. Each method
 is proved to do to the host what the function of the same name in `CallFrames` does to its value `Abs()`;
 `ok` is false where the Go code panics, and then nothing is promised.
 */
module Hosts {
  import opened Basics
  import CF = CallFrames

  class CallFrame {
    const depth: int
    const ctx: CF.Scope
    const callerNonce: U64
    var lastOp: Byte
    var lastPC: U64
    var lastCreate2Salt: CF.Salt
    var lastJumps: seq<U64>
    var prank: Option<CF.Prank>
    var gasUsed: U64

    constructor (depth: int, op: Byte, pc: U64, ctx: CF.Scope, callerNonce: U64)
      ensures View() == CF.Frame(depth, op, pc, 0, [], ctx, None, 0, callerNonce)
    {
      this.depth, this.ctx, this.callerNonce := depth, ctx, callerNonce;
      lastOp, lastPC, lastCreate2Salt, lastJumps := op, pc, 0, [];
      prank, gasUsed := None, 0;
    }

    function View(): CF.Frame
      reads this
    {
      CF.Frame(depth, lastOp, lastPC, lastCreate2Salt, lastJumps, ctx, prank, gasUsed, callerNonce)
    }

    /** Take note of the opcode that runs. */
    method Tick(pc: U64, op: Byte, salt: CF.Salt)
      modifies this
      ensures View() == CF.Tick(old(View()), pc, op, salt)
    {
      if op == CF.JUMPDEST {
        lastJumps := lastJumps + [lastPC];
        if |lastJumps| > CF.JUMP_HISTORY {
          lastJumps := lastJumps[|lastJumps| - CF.JUMP_HISTORY..];
        }
      }
      lastOp := op;
      lastPC := pc;
      if op == CF.CREATE2 {
        lastCreate2Salt := salt;
      }
    }
  }

  class Host {
    const cfg: CF.Config
    var callStack: seq<CallFrame>
    var txOrigin: CF.Address
    var nonces: map<CF.Address, U64>
    var broadcasts: seq<CF.Broadcast>
    var allowedCheatcodes: set<CF.Address>
    var pranksMade: nat

    /** No frame is on the stack twice. */
    ghost predicate Valid()
      reads this
    {
      forall i, k :: 0 <= i < k < |callStack| ==> callStack[i] != callStack[k]
    }

    ghost function Views(): (r: seq<CF.Frame>)
      reads this, callStack
      ensures |r| == |callStack|
      ensures forall i :: 0 <= i < |r| ==> r[i] == callStack[i].View()
    {
      seq(|callStack|, i requires 0 <= i < |callStack| reads this, callStack => callStack[i].View())
    }

    ghost function Abs(): CF.State
      reads this, callStack
    {
      CF.State(Views(), txOrigin, nonces, broadcasts, allowedCheatcodes, pranksMade)
    }

    /** The frames are the ones there were, from the bottom, with at most a new one on top. */
    twostate predicate KeepsFrames()
      reads this
    {
      || callStack <= old(callStack)
      || (callStack != [] && callStack[..|callStack| - 1] <= old(callStack) && fresh(callStack[|callStack| - 1]))
    }

    twostate lemma KeptOrNew()
      requires KeepsFrames()
      ensures forall k :: 0 <= k < |callStack| ==> callStack[k] in old(callStack) || fresh(callStack[k])
    {
    }

    constructor (cfg: CF.Config, origin: CF.Address)
      ensures Valid() && this.cfg == cfg
      ensures Abs() == CF.State([], origin, map[], [], {}, 0)
    {
      this.cfg := cfg;
      callStack, txOrigin, nonces, broadcasts, allowedCheatcodes, pranksMade := [], origin, map[], [], {}, 0;
    }

    method HandleCaller(caller: CF.Address) returns (sender: CF.Address)
      requires Valid()
      modifies this
      ensures Valid() && callStack == old(callStack)
      ensures Abs() == CF.HandleCaller(cfg, old(Abs()), caller)
      ensures sender == CF.CallerOf(cfg, old(Abs()), caller).0
    {
      if |callStack| > 0 {
        var parent := callStack[|callStack| - 1];
        if parent.prank.Some? && caller != CF.VM_ADDR {
          if parent.prank.value.broadcast && parent.lastOp == CF.CREATE2 && cfg.useCreate2Deployer {
            return CF.DETERMINISTIC_DEPLOYER;
          }
          if parent.prank.value.sender.Some? {
            return parent.prank.value.sender.value;
          }
          if parent.prank.value.origin.Some? {
            txOrigin := parent.prank.value.origin.value;
          }
        }
      }
      return caller;
    }

    /** Give the top frame another prank, or none. */
    method PutPrank(prank: Option<CF.Prank>)
      requires Valid() && callStack != []
      modifies callStack[|callStack| - 1]
      ensures Abs() == CF.SetTop(old(Abs()), CF.Top(old(Abs())).(prank := prank))
    {
      var cf := callStack[|callStack| - 1];
      cf.prank := prank;
      assert Views() == old(Views())[|callStack| - 1 := cf.View()];
    }

    method NewPrank(msgSender: Option<CF.Address>, origin: Option<CF.Address>, repeats: bool, broadcast: bool)
      requires Valid() && callStack != []
      modifies this`pranksMade, callStack[|callStack| - 1]
      ensures pranksMade == old(pranksMade) + 1
      ensures Views() == CF.SetTop(old(Abs()), CF.Top(old(Abs())).(
        prank := Some(CF.Prank(old(pranksMade), msgSender, origin, txOrigin, repeats, broadcast)))).stack
    {
      PutPrank(Some(CF.Prank(pranksMade, msgSender, origin, txOrigin, repeats, broadcast)));
      ghost var views := Views();
      pranksMade := pranksMade + 1;
      assert Views() == views;
    }

    method Prank(msgSender: Option<CF.Address>, origin: Option<CF.Address>, repeats: bool, broadcast: bool)
      returns (err: CF.Refusal)
      requires Valid()
      modifies this, callStack
      ensures Valid() && callStack == old(callStack)
      ensures Abs() == CF.SetPrank(old(Abs()), msgSender, origin, repeats, broadcast)
      ensures err == CF.SetPrankRefusal(old(Abs()), broadcast)
    {
      if |callStack| == 0 {
        return CF.NotRefused;
      }
      var cf := callStack[|callStack| - 1];
      if cf.prank.Some? {
        if cf.prank.value.broadcast && !broadcast {
          return CF.ActiveBroadcast;
        }
        if !cf.prank.value.broadcast && broadcast {
          return CF.ActivePrank;
        }
      }
      NewPrank(msgSender, origin, repeats, broadcast);
      return CF.NotRefused;
    }

    method StopPrank(broadcast: bool) returns (err: CF.Refusal)
      requires Valid()
      modifies callStack
      ensures Valid() && callStack == old(callStack)
      ensures Abs() == CF.StopPrank(old(Abs()), broadcast)
      ensures err == CF.StopPrankRefusal(old(Abs()), broadcast)
    {
      if |callStack| == 0 {
        return CF.NotRefused;
      }
      var cf := callStack[|callStack| - 1];
      if cf.prank.None? {
        return if broadcast then CF.NoBroadcast else CF.NotRefused;
      }
      if cf.prank.value.broadcast && !broadcast {
        return CF.NotRefused;
      }
      if !cf.prank.value.broadcast && broadcast {
        return CF.NoBroadcast;
      }
      PutPrank(None);
      return CF.NotRefused;
    }

    method OnEnter(typ: Byte, to: CF.Address) returns (ok: bool)
      requires Valid()
      modifies this
      ensures Valid() && callStack == old(callStack)
      ensures ok <==> CF.OnEnter(old(Abs()), typ, to).Some?
      ensures ok ==> Some(Abs()) == CF.OnEnter(old(Abs()), typ, to)
    {
      if |callStack| == 0 {
        return true;
      }
      var parent := callStack[|callStack| - 1];
      if parent.prank.None? {
        return true;
      }
      if parent.lastOp != typ {
        return false;
      }
      if !parent.prank.value.broadcast || to == CF.VM_ADDR || to == CF.CONSOLE_ADDR {
        return true;
      }
      if parent.lastOp == CF.CALL || parent.lastOp == CF.CREATE2 {
        var sender := parent.ctx.self;
        if parent.prank.value.sender.Some? {
          sender := parent.prank.value.sender.value;
        }
        nonces := nonces[sender := Plus(CF.NonceOf(nonces, sender), 1)];
        assert Views() == old(Views());
      }
      return true;
    }

    /** Hand the sub-call `current` of a broadcasting frame to the broadcast hook. */
    method Report(parent: CallFrame, current: CallFrame) returns (ok: bool)
      requires parent.prank.Some? && parent.prank.value.broadcast
      modifies this`broadcasts
      ensures ok <==> CF.Emitted(cfg, parent.View(), current.View()).Some?
      ensures ok ==> broadcasts == old(broadcasts) + CF.Emitted(cfg, parent.View(), current.View()).value
    {
      if parent.lastOp != CF.DELEGATECALL && parent.lastOp != CF.STATICCALL {
        var bcast := CF.NewBroadcast(cfg, parent.View(), current.View());
        if bcast.None? {
          return false;
        }
        broadcasts := broadcasts + [bcast.value];
      }
      return true;
    }

    /** Back from a sub-call: restore tx.origin and use up a prank that does not repeat. */
    method Return(parent: CallFrame)
      requires parent.prank.Some?
      modifies this`txOrigin, parent`prank
      ensures txOrigin == CF.RestoredOrigin(old(parent.View()), old(txOrigin))
      ensures parent.View() == CF.AfterSubCall(old(parent.View()))
    {
      if parent.prank.value.origin.Some? {
        txOrigin := parent.prank.value.prevOrigin;
      }
      if !parent.prank.value.repeats {
        parent.prank := None;
      }
    }

    /** What leaving `current` does to the frame below it and to the host. */
    method Leave(parent: CallFrame, current: CallFrame) returns (ok: bool)
      requires parent != current
      modifies this`broadcasts, this`txOrigin, parent`prank
      ensures ok <==> CF.Emitted(cfg, old(parent.View()), current.View()).Some?
      ensures ok ==> broadcasts == old(broadcasts) + CF.Emitted(cfg, old(parent.View()), current.View()).value
      ensures ok ==> txOrigin == CF.RestoredOrigin(old(parent.View()), old(txOrigin))
      ensures ok ==> parent.View() == CF.AfterSubCall(old(parent.View()))
    {
      if parent.prank.Some? {
        if parent.prank.value.broadcast {
          ok := Report(parent, current);
          if !ok {
            return;
          }
        }
        Return(parent);
      }
      return true;
    }

    /** Pop one frame: report it if its parent broadcasts, restore tx.origin, use up a one-shot prank. */
    method PopFrame() returns (ok: bool)
      requires Valid() && callStack != []
      modifies this, callStack
      ensures Valid()
      ensures ok <==> CF.Pop(cfg, old(Abs())).Some?
      ensures ok ==> callStack == old(callStack)[..|old(callStack)| - 1] && Some(Abs()) == CF.Pop(cfg, old(Abs()))
    {
      var n := |callStack|;
      if n > 1 {
        var left := Leave(callStack[n - 2], callStack[n - 1]);
        if !left {
          return false;
        }
      }
      callStack := callStack[..n - 1];
      assert n == 1 ==> Views() == [];
      assert n > 1 ==> Views() == old(Views())[..n - 2] + [CF.AfterSubCall(old(Views())[n - 2])];
      return true;
    }

    method UnwindCallstack(depth: int) returns (ok: bool)
      requires Valid()
      modifies this, callStack
      ensures Valid()
      ensures ok <==> CF.Unwind(cfg, old(Abs()), depth).Some?
      ensures ok ==> callStack <= old(callStack) && Some(Abs()) == CF.Unwind(cfg, old(Abs()), depth)
    {
      ghost var was := callStack;
      while |callStack| > 0 && callStack[|callStack| - 1].depth > depth
        invariant Valid() && callStack <= was
        invariant CF.Unwind(cfg, Abs(), depth) == CF.Unwind(cfg, old(Abs()), depth)
        decreases |callStack|
      {
        var popped := PopFrame();
        if !popped {
          return false;
        }
      }
      return true;
    }

    method OnExit(depth: int, gasUsed: U64) returns (ok: bool)
      requires Valid()
      modifies this, callStack
      ensures Valid()
      ensures ok <==> CF.OnExit(cfg, old(Abs()), depth, gasUsed).Some?
      ensures ok ==> callStack <= old(callStack) && Some(Abs()) == CF.OnExit(cfg, old(Abs()), depth, gasUsed)
    {
      if |callStack| == 0 {
        return false;
      }
      var top := callStack[|callStack| - 1];
      top.gasUsed := Plus(top.gasUsed, gasUsed);
      assert Abs() == CF.Spend(old(Abs()), gasUsed);
      ok := UnwindCallstack(depth);
    }

    /** A contract that is being deployed inherits access to the cheatcodes from its deployer. */
    method GrantCheatcodes(scope: CF.Scope)
      modifies this`allowedCheatcodes
      ensures allowedCheatcodes == CF.GrantCheatcodes(old(allowedCheatcodes), scope)
    {
      if scope.isDeployment {
        if scope.self !in allowedCheatcodes && scope.caller in allowedCheatcodes {
          allowedCheatcodes := allowedCheatcodes + {scope.self};
        }
      }
    }

    method Descend(depth: int, pc: U64, op: Byte, scope: CF.Scope) returns (cf: CallFrame)
      requires Valid()
      modifies this`callStack
      ensures Valid() && callStack != [] && cf == callStack[|callStack| - 1]
      ensures cf in old(callStack) || fresh(cf)
      ensures Abs() == CF.Descend(old(Abs()), depth, pc, op, scope)
      ensures callStack == old(callStack) ||
              (callStack != [] && callStack[..|callStack| - 1] == old(callStack) && fresh(callStack[|callStack| - 1]))
    {
      if |callStack| == 0 || callStack[|callStack| - 1].depth < depth {
        var frame := new CallFrame(depth, op, pc, scope, CF.NonceOf(nonces, scope.caller));
        callStack := callStack + [frame];
        assert Views() == old(Views()) + [frame.View()];
      }
      cf := callStack[|callStack| - 1];
    }

    method TickTop(pc: U64, op: Byte, salt: CF.Salt)
      requires Valid() && callStack != []
      modifies callStack[|callStack| - 1]
      ensures Valid()
      ensures Abs() == CF.SetTop(old(Abs()), CF.Tick(CF.Top(old(Abs())), pc, op, salt))
    {
      callStack[|callStack| - 1].Tick(pc, op, salt);
      assert Views() == old(Views())[|callStack| - 1 := callStack[|callStack| - 1].View()];
    }

    /** The scope that runs gets its cheatcode access, and a frame if it has none. */
    method Appear(pc: U64, op: Byte, depth: int, scope: CF.Scope) returns (cf: CallFrame)
      requires Valid()
      modifies this`allowedCheatcodes, this`callStack
      ensures Valid() && callStack != [] && cf == callStack[|callStack| - 1]
      ensures cf in old(callStack) || fresh(cf)
      ensures var granted := CF.GrantCheatcodes(old(Abs()).allowed, scope);
              Abs() == CF.Descend(old(Abs()).(allowed := granted), depth, pc, op, scope)
      ensures callStack == old(callStack) ||
              (callStack != [] && callStack[..|callStack| - 1] == old(callStack) && fresh(callStack[|callStack| - 1]))
    {
      GrantCheatcodes(scope);
      assert Views() == old(Views());
      cf := Descend(depth, pc, op, scope);
    }

    /** The part of an opcode after unwinding; it fails if another scope runs at this depth. */
    method Settle(pc: U64, op: Byte, depth: int, scope: CF.Scope, salt: CF.Salt) returns (ok: bool)
      requires Valid()
      modifies this, callStack
      ensures Valid()
      ensures ok <==> CF.Top(CF.Settle(old(Abs()), pc, op, depth, scope, salt)).ctx.id == scope.id
      ensures ok ==> Abs() == CF.Settle(old(Abs()), pc, op, depth, scope, salt)
      ensures callStack == old(callStack) ||
              (callStack != [] && callStack[..|callStack| - 1] == old(callStack) && fresh(callStack[|callStack| - 1]))
    {
      var cf := Appear(pc, op, depth, scope);
      if cf.ctx.id != scope.id {
        return false;
      }
      TickTop(pc, op, salt);
      return true;
    }

    method OnOpcode(pc: U64, op: Byte, depth: int, scope: CF.Scope, salt: CF.Salt) returns (ok: bool)
      requires Valid()
      modifies this, callStack
      ensures Valid()
      ensures ok <==> CF.OnOpcode(cfg, old(Abs()), pc, op, depth, scope, salt).Some?
      ensures ok ==> Some(Abs()) == CF.OnOpcode(cfg, old(Abs()), pc, op, depth, scope, salt)
      ensures ok ==> KeepsFrames()
    {
      ok := UnwindCallstack(depth);
      if ok {
        ok := Settle(pc, op, depth, scope, salt);
      }
    }

    method SetNonce(account: CF.Address, nonce: U64)
      modifies this`nonces
      ensures nonces == old(nonces)[account := nonce]
    {
      nonces := nonces[account := nonce];
    }

    method SetTxOrigin(account: CF.Address)
      modifies this`txOrigin
      ensures txOrigin == account
    {
      txOrigin := account;
    }

    method AllowCheatcodes(account: CF.Address)
      modifies this`allowedCheatcodes
      ensures allowedCheatcodes == old(allowedCheatcodes) + {account}
    {
      allowedCheatcodes := allowedCheatcodes + {account};
    }

    /** One call into the host, as a step of a run. */
    method Dispatch(e: CF.Event) returns (ok: bool)
      requires Valid()
      modifies this, callStack
      ensures Valid()
      ensures ok <==> CF.Step(cfg, old(Abs()), e).Some?
      ensures ok ==> Some(Abs()) == CF.Step(cfg, old(Abs()), e)
      ensures ok ==> KeepsFrames()
    {
      ok := true;
      match e
      case Call(caller) =>
        var sender := HandleCaller(caller);
      case Enter(_, typ, _, to) =>
        ok := OnEnter(typ, to);
      case Opcode(pc, op, depth, scope, salt) =>
        ok := OnOpcode(pc, op, depth, scope, salt);
      case Exit(depth, gasUsed) =>
        ok := OnExit(depth, gasUsed);
      case StartPrank(sender, origin, repeats, broadcast) =>
        var err := Prank(sender, origin, repeats, broadcast);
      case EndPrank(broadcast) =>
        var err := StopPrank(broadcast);
      case SetNonce(account, nonce) =>
        SetNonce(account, nonce);
        assert Views() == old(Views());
      case SetOrigin(account) =>
        SetTxOrigin(account);
        assert Views() == old(Views());
      case Allow(account) =>
        AllowCheatcodes(account);
        assert Views() == old(Views());
    }

    /** Any number of calls into the host, as a run; it stops where the Go code panics. */
    method Replay(es: seq<CF.Event>) returns (ok: bool)
      requires Valid()
      modifies this, callStack
      ensures Valid()
      ensures ok <==> CF.Run(cfg, old(Abs()), es).Some?
      ensures ok ==> Some(Abs()) == CF.Run(cfg, old(Abs()), es)
    {
      for i := 0 to |es|
        invariant Valid()
        invariant forall k :: 0 <= k < |callStack| ==> callStack[k] in old(callStack) || fresh(callStack[k])
        invariant CF.Run(cfg, Abs(), es[i..]) == CF.Run(cfg, old(Abs()), es)
      {
        label before:
        ok := Dispatch(es[i]);
        if !ok {
          return;
        }
        KeptOrNew@before();
        assert es[i..][1..] == es[i + 1..];
      }
      return true;
    }
  }
}
