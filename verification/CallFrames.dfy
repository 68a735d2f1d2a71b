/**
 The shadow call stack of the Forge-script host, as values.

 `State` is what the trace hooks of the host read and write. Every hook is a function from a state
 to the next one; `None` stands for a Go panic. The class `Hosts.Host` runs the same hooks in place.
 */
module CallFrames {
  import opened Basics

  /** A 20-byte account address. */
  type Address = nat

  /** A 32-byte CREATE2 salt. */
  type Salt = nat

  const VM_ADDR: Address := 0x7109709ECfa91a80626fF3989D68f67F5b1DD12D
  const CONSOLE_ADDR: Address := 0x000000000000000000636F6e736F6c652e6c6f67
  const DETERMINISTIC_DEPLOYER: Address := 0x4e59b44847b379578588920ca78fbf26c0b4956c

  const JUMPDEST: Byte := 0x5b
  const CREATE: Byte := 0xf0
  const CALL: Byte := 0xf1
  const DELEGATECALL: Byte := 0xf4
  const CREATE2: Byte := 0xf5
  const STATICCALL: Byte := 0xfa

  const JUMP_HISTORY: nat := 5

  /** An active prank or broadcast. `id` is the identity of the Go allocation made when it was set. */
  datatype Prank = Prank(id: nat, sender: Option<Address>, origin: Option<Address>, prevOrigin: Address,
                         repeats: bool, broadcast: bool)

  /** The EVM scope of one call; `id` is the identity of the Go pointer. */
  datatype Scope = Scope(id: nat, self: Address, caller: Address, value: Option<nat>, input: seq<Byte>,
                         isDeployment: bool, code: seq<Byte>)

  datatype Frame = Frame(depth: int, lastOp: Byte, lastPC: U64, lastSalt: Salt, lastJumps: seq<U64>,
                         ctx: Scope, prank: Option<Prank>, gasUsed: U64, callerNonce: U64)

  datatype BroadcastType = BroadcastCall | BroadcastCreate | BroadcastCreate2

  datatype Broadcast = Broadcast(from: Address, to: Address, input: seq<Byte>, value: nat, salt: Salt,
                                 gasUsed: U64, typ: BroadcastType, nonce: U64)

  /** What the host was configured with; the two address derivations are foreign code. */
  datatype Config = Config(useCreate2Deployer: bool,
                           createAddress: (Address, U64) -> Address,
                           create2Address: (Address, Salt, seq<Byte>) -> Address)

  datatype State = State(stack: seq<Frame>, origin: Address, nonces: map<Address, U64>,
                         broadcasts: seq<Broadcast>, allowed: set<Address>, nextPrank: nat)

  function NonceOf(nonces: map<Address, U64>, a: Address): U64 {
    if a in nonces then nonces[a] else 0
  }

  function Top(s: State): Frame
    requires s.stack != []
  {
    s.stack[|s.stack| - 1]
  }

  function SetTop(s: State, f: Frame): State
    requires s.stack != []
  {
    s.(stack := s.stack[|s.stack| - 1 := f])
  }

  // ----- pranks -----

  /** The sender a call made by the top frame gets, and tx.origin after the call was looked at. */
  function CallerOf(cfg: Config, s: State, caller: Address): (r: (Address, Address)) {
    if s.stack == [] || Top(s).prank.None? || caller == VM_ADDR then (caller, s.origin)
    else
      var p := Top(s).prank.value;
      if p.broadcast && Top(s).lastOp == CREATE2 && cfg.useCreate2Deployer then
        (DETERMINISTIC_DEPLOYER, s.origin)
      else if p.sender.Some? then (p.sender.value, s.origin)
      else if p.origin.Some? then (caller, p.origin.value)
      else (caller, s.origin)
  }

  function HandleCaller(cfg: Config, s: State, caller: Address): State {
    s.(origin := CallerOf(cfg, s, caller).1)
  }

  datatype Refusal = NotRefused | ActiveBroadcast | ActivePrank | NoBroadcast

  function SetPrankRefusal(s: State, broadcast: bool): Refusal {
    if s.stack == [] || Top(s).prank.None? then NotRefused
    else if Top(s).prank.value.broadcast && !broadcast then ActiveBroadcast
    else if !Top(s).prank.value.broadcast && broadcast then ActivePrank
    else NotRefused
  }

  function SetPrank(s: State, sender: Option<Address>, origin: Option<Address>, repeats: bool, broadcast: bool): State {
    if s.stack == [] || SetPrankRefusal(s, broadcast) != NotRefused then s
    else
      SetTop(s, Top(s).(prank := Some(Prank(s.nextPrank, sender, origin, s.origin, repeats, broadcast))))
      .(nextPrank := s.nextPrank + 1)
  }

  function StopPrankRefusal(s: State, broadcast: bool): Refusal {
    if s.stack != [] && broadcast && (Top(s).prank.None? || !Top(s).prank.value.broadcast) then NoBroadcast
    else NotRefused
  }

  function StopPrank(s: State, broadcast: bool): State {
    if s.stack == [] || Top(s).prank.None? || Top(s).prank.value.broadcast != broadcast then s
    else SetTop(s, Top(s).(prank := None))
  }

  // ----- leaving frames -----

  function NewBroadcast(cfg: Config, parent: Frame, current: Frame): Option<Broadcast> {
    var ctx := current.ctx;
    var value := if ctx.value.Some? then ctx.value.value else 0;
    var input := if ctx.isDeployment then ctx.code else ctx.input;
    if parent.lastOp == CREATE then
      var nonce := Minus1(current.callerNonce);
      if cfg.createAddress(ctx.caller, nonce) != ctx.self then None
      else Some(Broadcast(ctx.caller, ctx.self, input, value, 0, current.gasUsed, BroadcastCreate, nonce))
    else if parent.lastOp == CREATE2 then
      if cfg.create2Address(ctx.caller, parent.lastSalt, input) != ctx.self then None
      else Some(Broadcast(ctx.caller, ctx.self, input, value, parent.lastSalt, current.gasUsed, BroadcastCreate2, 0))
    else if parent.lastOp == CALL then
      var nonce := Minus1(current.callerNonce);
      Some(Broadcast(ctx.caller, ctx.self, input, value, 0, current.gasUsed, BroadcastCall, nonce))
    else None
  }

  /** The broadcasts that leaving `current` for `parent` reports: none or one, or a panic. */
  function Emitted(cfg: Config, parent: Frame, current: Frame): Option<seq<Broadcast>> {
    if parent.prank.None? || !parent.prank.value.broadcast then Some([])
    else if parent.lastOp == DELEGATECALL || parent.lastOp == STATICCALL then Some([])
    else
      var b :- NewBroadcast(cfg, parent, current);
      Some([b])
  }

  /** Tx.origin after a sub-call of `parent` was left. */
  function RestoredOrigin(parent: Frame, origin: Address): Address {
    if parent.prank.Some? && parent.prank.value.origin.Some? then parent.prank.value.prevOrigin else origin
  }

  /** `parent` after one of its sub-calls was left: a prank that does not repeat is used up. */
  function AfterSubCall(parent: Frame): Frame {
    if parent.prank.Some? && !parent.prank.value.repeats then parent.(prank := None) else parent
  }

  function Pop(cfg: Config, s: State): (r: Option<State>)
    requires s.stack != []
    ensures r.Some? ==> |r.value.stack| == |s.stack| - 1
  {
    var n := |s.stack|;
    if n == 1 then Some(s.(stack := []))
    else
      var parent := s.stack[n - 2];
      var bs :- Emitted(cfg, parent, s.stack[n - 1]);
      Some(s.(stack := s.stack[..n - 2] + [AfterSubCall(parent)],
              broadcasts := s.broadcasts + bs,
              origin := RestoredOrigin(parent, s.origin)))
  }

  function Unwind(cfg: Config, s: State, depth: int): Option<State>
    decreases |s.stack|
  {
    if s.stack == [] || Top(s).depth <= depth then Some(s)
    else
      var s' :- Pop(cfg, s);
      Unwind(cfg, s', depth)
  }

  // ----- trace hooks -----

  predicate Bumps(f: Frame, to: Address) {
    && f.prank.Some? && f.prank.value.broadcast
    && to != VM_ADDR && to != CONSOLE_ADDR
    && (f.lastOp == CALL || f.lastOp == CREATE2)
  }

  function SenderOf(f: Frame): Address {
    if f.prank.Some? && f.prank.value.sender.Some? then f.prank.value.sender.value else f.ctx.self
  }

  function OnEnter(s: State, typ: Byte, to: Address): Option<State> {
    if s.stack == [] || Top(s).prank.None? then Some(s)
    else if Top(s).lastOp != typ then None
    else if Bumps(Top(s), to) then
      var sender := SenderOf(Top(s));
      Some(s.(nonces := s.nonces[sender := Plus(NonceOf(s.nonces, sender), 1)]))
    else Some(s)
  }

  /** Gas is charged to whichever frame is on top. */
  function Spend(s: State, gasUsed: U64): State
    requires s.stack != []
  {
    SetTop(s, Top(s).(gasUsed := Plus(Top(s).gasUsed, gasUsed)))
  }

  function OnExit(cfg: Config, s: State, depth: int, gasUsed: U64): Option<State> {
    if s.stack == [] then None else Unwind(cfg, Spend(s, gasUsed), depth)
  }

  function GrantCheatcodes(allowed: set<Address>, scope: Scope): set<Address> {
    if scope.isDeployment && scope.caller in allowed then allowed + {scope.self} else allowed
  }

  function NewFrame(s: State, depth: int, pc: U64, op: Byte, scope: Scope): Frame {
    Frame(depth, op, pc, 0, [], scope, None, 0, NonceOf(s.nonces, scope.caller))
  }

  /** Push a frame when the opcode runs deeper than the top of the stack. */
  function Descend(s: State, depth: int, pc: U64, op: Byte, scope: Scope): (r: State)
    ensures r.stack != []
  {
    if s.stack == [] || Top(s).depth < depth then s.(stack := s.stack + [NewFrame(s, depth, pc, op, scope)])
    else s
  }

  function RememberJump(jumps: seq<U64>, pc: U64): seq<U64> {
    var js := jumps + [pc];
    if |js| > JUMP_HISTORY then js[|js| - JUMP_HISTORY..] else js
  }

  function Tick(f: Frame, pc: U64, op: Byte, salt: Salt): Frame {
    f.(lastJumps := if op == JUMPDEST then RememberJump(f.lastJumps, f.lastPC) else f.lastJumps,
       lastOp := op,
       lastPC := pc,
       lastSalt := if op == CREATE2 then salt else f.lastSalt)
  }

  /** An opcode on a stack that was unwound to its depth. */
  function Settle(s: State, pc: U64, op: Byte, depth: int, scope: Scope, salt: Salt): (r: State)
    ensures r.stack != []
  {
    var s' := Descend(s.(allowed := GrantCheatcodes(s.allowed, scope)), depth, pc, op, scope);
    SetTop(s', Tick(Top(s'), pc, op, salt))
  }

  function OnOpcode(cfg: Config, s: State, pc: U64, op: Byte, depth: int, scope: Scope, salt: Salt): Option<State> {
    var s1 :- Unwind(cfg, s, depth);
    var s2 := Settle(s1, pc, op, depth, scope, salt);
    if Top(s2).ctx.id != scope.id then None else Some(s2)
  }

  // ----- runs -----

  /**
   One call into the host. `Call` is the caller override the EVM asks for before it enters a call;
   `SetNonce`, `SetOrigin` and `Allow` are the changes the EVM, a cheatcode or the Go driver makes.
   */
  datatype Event =
    | Call(caller: Address)
    | Enter(depth: int, typ: Byte, from: Address, to: Address)
    | Opcode(pc: U64, op: Byte, depth: int, scope: Scope, salt: Salt)
    | Exit(depth: int, gasUsed: U64)
    | StartPrank(sender: Option<Address>, origin: Option<Address>, repeats: bool, broadcast: bool)
    | EndPrank(broadcast: bool)
    | SetNonce(account: Address, nonce: U64)
    | SetOrigin(account: Address)
    | Allow(account: Address)

  function Step(cfg: Config, s: State, e: Event): Option<State> {
    match e
    case Call(caller) => Some(HandleCaller(cfg, s, caller))
    case Enter(_, typ, _, to) => OnEnter(s, typ, to)
    case Opcode(pc, op, depth, scope, salt) => OnOpcode(cfg, s, pc, op, depth, scope, salt)
    case Exit(depth, gasUsed) => OnExit(cfg, s, depth, gasUsed)
    case StartPrank(sender, origin, repeats, broadcast) => Some(SetPrank(s, sender, origin, repeats, broadcast))
    case EndPrank(broadcast) => Some(StopPrank(s, broadcast))
    case SetNonce(account, nonce) => Some(s.(nonces := s.nonces[account := nonce]))
    case SetOrigin(account) => Some(s.(origin := account))
    case Allow(account) => Some(s.(allowed := s.allowed + {account}))
  }

  function Run(cfg: Config, s: State, es: seq<Event>): Option<State>
    decreases |es|
  {
    if es == [] then Some(s)
    else
      var s' :- Step(cfg, s, es[0]);
      Run(cfg, s', es[1..])
  }
}
