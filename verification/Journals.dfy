/**
 A journal of a run: what an onlooker of the host writes down about every call frame at the moment
 the frame appears, and the order in which frames go. The journal never looks at a frame again once
 it was recorded, so it is an independent account to compare the host's reports with.
 */
module Journals {
  import opened Basics
  import opened CallFrames

  /**
   A frame at the moment it was pushed: the frame below it, the opcode, prank and salt that frame had
   then, the scope of the new frame, the nonce of its caller and tx.origin. `preNonce` is the nonce its
   caller had before the call was entered, and `before` is tx.origin before the call was looked at.
   */
  datatype Birth = Birth(parent: Option<nat>, op: Byte, prank: Option<Prank>, salt: Salt, depth: int,
                         scope: Scope, callerNonce: U64, origin: Address, preNonce: U64, before: Address)

  /** A call that was entered and not left yet: by which frame, and which frame it opened, if any. */
  datatype Bracket = Bracket(caller: Option<nat>, typ: Byte, from: Address, to: Address, preNonce: U64,
                             postNonce: U64, before: Address, overridden: bool, frame: Option<nat>)

  /** A caller override the EVM asked for and has not used yet, and whether asking changed tx.origin. */
  datatype Pending = Pending(caller: Address, from: Address, before: Address, overridden: bool)

  /**
   `births` numbers every frame of the run; `live` holds the numbers of the frames on the stack and
   `closed` those that were popped, in pop order. `ownGas` is the gas reported when a frame's own call
   was left, `leafGas` that of its direct calls that opened no frame.
   */
  datatype Journal = Journal(births: seq<Birth>, live: seq<nat>, closed: seq<nat>,
                             brackets: seq<Bracket>, pending: Option<Pending>,
                             ownGas: seq<nat>, leafGas: seq<nat>)

  const EMPTY_JOURNAL := Journal([], [], [], [], None, [], [])

  function LastLive(j: Journal): Option<nat> {
    if j.live == [] then None else Some(j.live[|j.live| - 1])
  }

  /** The depth of the innermost live frame, if that frame is known. */
  function LiveDepth(j: Journal): Option<int> {
    if LastLive(j).Some? && LastLive(j).value < |j.births| then Some(j.births[LastLive(j).value].depth) else None
  }

  /** A call was entered and has not run an opcode yet. */
  predicate Opening(j: Journal) {
    j.brackets != [] && j.brackets[|j.brackets| - 1].frame.None?
  }

  function CloseTop(j: Journal): Journal
    requires j.live != []
  {
    j.(closed := j.closed + [j.live[|j.live| - 1]], live := j.live[..|j.live| - 1])
  }

  function Close(j: Journal, depth: int): Journal
    decreases |j.live|
  {
    if LiveDepth(j).None? || LiveDepth(j).value <= depth then j
    else Close(CloseTop(j), depth)
  }

  lemma {:induction false} CloseKeepsBirths(j: Journal, depth: int)
    ensures Close(j, depth).births == j.births
    decreases |j.live|
  {
    if !(LiveDepth(j).None? || LiveDepth(j).value <= depth) {
      CloseKeepsBirths(CloseTop(j), depth);
    }
  }

  function BirthOf(j: Journal, s: State, depth: int, scope: Scope): Birth {
    var n := |s.stack|;
    var preNonce := if Opening(j) then j.brackets[|j.brackets| - 1].preNonce else 0;
    var before := if Opening(j) then j.brackets[|j.brackets| - 1].before else s.origin;
    if n < 2 then
      Birth(None, 0, None, 0, depth, scope, NonceOf(s.nonces, scope.caller), s.origin, preNonce, before)
    else
      var parent := s.stack[n - 2];
      Birth(LastLive(j), parent.lastOp, parent.prank, parent.lastSalt, depth, scope,
            NonceOf(s.nonces, scope.caller), s.origin, preNonce, before)
  }

  function OpenBracket(brackets: seq<Bracket>, id: nat): seq<Bracket> {
    if brackets != [] && brackets[|brackets| - 1].frame.None? then
      brackets[|brackets| - 1 := brackets[|brackets| - 1].(frame := Some(id))]
    else brackets
  }

  /** A frame appeared; `s` is the host just after. */
  function Open(j: Journal, s: State, depth: int, scope: Scope): Journal {
    j.(births := j.births + [BirthOf(j, s, depth, scope)],
       live := j.live + [|j.births|],
       brackets := OpenBracket(j.brackets, |j.births|),
       ownGas := j.ownGas + [0],
       leafGas := j.leafGas + [0])
  }

  function AddAt(gas: seq<nat>, id: Option<nat>, g: nat): seq<nat> {
    if id.Some? && id.value < |gas| then gas[id.value := gas[id.value] + g] else gas
  }

  /** The innermost call was left and reported `g` gas. */
  function Charge(j: Journal, g: nat): Journal {
    if j.brackets == [] then j
    else
      var b := j.brackets[|j.brackets| - 1];
      var rest := j.brackets[..|j.brackets| - 1];
      if b.frame.Some? then j.(brackets := rest, ownGas := AddAt(j.ownGas, b.frame, g))
      else j.(brackets := rest, leafGas := AddAt(j.leafGas, b.caller, g))
  }

  /** What the journal records about the step from `s` to `s'`. */
  function Observe(cfg: Config, j: Journal, s: State, e: Event, s': State): Journal {
    match e
    case Call(caller) =>
      j.(pending := Some(Pending(caller, CallerOf(cfg, s, caller).0, s.origin, s'.origin != s.origin)))
    case Enter(_, typ, from, to) =>
      var b := Bracket(LastLive(j), typ, from, to, NonceOf(s.nonces, from), NonceOf(s'.nonces, from),
                       if j.pending.Some? then j.pending.value.before else s.origin,
                       j.pending.Some? && j.pending.value.overridden, None);
      j.(brackets := j.brackets + [b], pending := None)
    case Opcode(_, _, depth, scope, _) =>
      var j1 := Close(j, depth);
      if LiveDepth(j1).None? || LiveDepth(j1).value < depth then Open(j1, s', depth, scope) else j1
    case Exit(depth, gasUsed) =>
      Close(Charge(j, gasUsed), depth)
    case _ => j
  }

  /** A host together with its journal. */
  datatype Snap = Snap(s: State, j: Journal)

  function Advance(cfg: Config, c: Snap, e: Event): Option<Snap> {
    var s' :- Step(cfg, c.s, e);
    Some(Snap(s', Observe(cfg, c.j, c.s, e, s')))
  }

  /** An opcode is an unwinding followed by a settling, for the host and for the journal. */
  lemma OpcodeParts(cfg: Config, c: Snap, e: Event, c': Snap) returns (s1: State, j1: Journal)
    requires e.Opcode? && Advance(cfg, c, e) == Some(c')
    ensures Unwind(cfg, c.s, e.depth) == Some(s1) && j1 == Close(c.j, e.depth)
    ensures c'.s == Settle(s1, e.pc, e.op, e.depth, e.scope, e.salt)
    ensures c'.j == if LiveDepth(j1).None? || LiveDepth(j1).value < e.depth
                    then Open(j1, c'.s, e.depth, e.scope)
                    else j1
  {
    s1, j1 := Unwind(cfg, c.s, e.depth).value, Close(c.j, e.depth);
  }

  predicate SameFrames(j: Journal, j': Journal) {
    j'.births == j.births && j'.live == j.live && j'.closed == j.closed
  }

  /** Every other call into the host leaves the frames where they are; at most the top one's prank changes. */
  lemma QuietStep(cfg: Config, c: Snap, e: Event, c': Snap)
    requires !e.Opcode? && !e.Exit? && Advance(cfg, c, e) == Some(c')
    ensures SameFrames(c.j, c'.j) && c'.j.ownGas == c.j.ownGas && c'.j.leafGas == c.j.leafGas
    ensures c'.s.broadcasts == c.s.broadcasts
    ensures |c'.s.stack| == |c.s.stack|
    ensures forall i :: 0 <= i < |c.s.stack| - 1 ==> c'.s.stack[i] == c.s.stack[i]
    ensures c.s.stack != [] ==> Top(c'.s) == Top(c.s).(prank := Top(c'.s).prank)
    ensures c.s.stack != [] && !e.StartPrank? && !e.EndPrank? ==> Top(c'.s) == Top(c.s)
  {
  }

  function Exec(cfg: Config, c: Snap, es: seq<Event>): Option<Snap>
    decreases |es|
  {
    if es == [] then Some(c)
    else
      var c' :- Advance(cfg, c, es[0]);
      Exec(cfg, c', es[1..])
  }

  /** A host that has run nothing. */
  predicate Fresh(s: State) {
    s.stack == [] && s.broadcasts == []
  }

  /** Keeping a journal does not change the run. */
  lemma {:induction false} JournalIsPassive(cfg: Config, c: Snap, es: seq<Event>)
    ensures Exec(cfg, c, es).Some? <==> Run(cfg, c.s, es).Some?
    ensures Exec(cfg, c, es).Some? ==> Exec(cfg, c, es).value.s == Run(cfg, c.s, es).value
    decreases |es|
  {
    if es != [] && Step(cfg, c.s, es[0]).Some? {
      JournalIsPassive(cfg, Advance(cfg, c, es[0]).value, es[1..]);
    }
  }
}
