/**
 What a prank or broadcast does to the calls made under it, over every legal run: whom the callee sees as its
 caller, and which tx.origin. A prank that sets both a sender and an origin changes only the sender.
 */
module Overrides {
  import opened Basics
  import opened CallFrames
  import opened Journals
  import opened Exactness
  import opened Nesting
  import opened GasAndNonces
  import opened Scripts

  /** A CREATE2 under a broadcast goes out from the deterministic deployer, if the host is told to use it. */
  predicate ViaDeployer(cfg: Config, op: Byte, prank: Option<Prank>) {
    cfg.useCreate2Deployer && op == CREATE2 && prank.Some? && prank.value.broadcast
  }

  predicate HasSender(prank: Option<Prank>) {
    prank.Some? && prank.value.sender.Some?
  }

  predicate HasOrigin(prank: Option<Prank>) {
    prank.Some? && prank.value.origin.Some?
  }

  /** Calls by `op` under `prank` see the tx.origin of the prank. */
  predicate Redirects(cfg: Config, op: Byte, prank: Option<Prank>) {
    HasOrigin(prank) && !HasSender(prank) && !ViaDeployer(cfg, op, prank)
  }

  function PrankedCaller(cfg: Config, op: Byte, prank: Option<Prank>, self: Address): Address {
    if ViaDeployer(cfg, op, prank) then DETERMINISTIC_DEPLOYER
    else if HasSender(prank) then prank.value.sender.value
    else self
  }

  function PrankedOrigin(cfg: Config, op: Byte, prank: Option<Prank>, before: Address): Address {
    if Redirects(cfg, op, prank) then prank.value.origin.value else before
  }

  /** Frame `b` has the caller and tx.origin that the prank it was opened under calls for. */
  predicate SeesPrank(cfg: Config, births: seq<Birth>, b: Birth) {
    b.parent.Some? && IsTransaction(b.op) ==>
      && b.parent.value < |births|
      && b.scope.caller == PrankedCaller(cfg, b.op, b.prank, births[b.parent.value].scope.self)
      && b.origin == PrankedOrigin(cfg, b.op, b.prank, b.before)
  }

  ghost predicate AllSeePranks(cfg: Config, births: seq<Birth>) {
    forall k :: 0 <= k < |births| ==> SeesPrank(cfg, births, births[k])
  }

  /** A call that frame `f` is making goes out from `from`, and tx.origin, which was `before`, is what it will see. */
  predicate Asked(cfg: Config, f: Frame, origin: Address, from: Address, before: Address) {
    && from == PrankedCaller(cfg, f.lastOp, f.prank, f.ctx.self)
    && origin == PrankedOrigin(cfg, f.lastOp, f.prank, before)
  }

  /** The call being made is the one that the prank of the frame making it calls for. */
  predicate Asking(cfg: Config, s: State, j: Journal) {
    s.stack != [] ==>
      && (j.pending.Some? ==> Asked(cfg, Top(s), s.origin, j.pending.value.from, j.pending.value.before))
      && (Opening(j) && LastBracket(j).to != VM_ADDR ==>
            && LastBracket(j).typ == Top(s).lastOp
            && (IsTransaction(LastBracket(j).typ) ==>
                  Asked(cfg, Top(s), s.origin, LastBracket(j).from, LastBracket(j).before)))
  }

  lemma CallAsking(cfg: Config, c: Snap, e: Event, c': Snap)
    requires Calling(cfg, c.s, c.j) && e.Call? && Legal(c, e) && Advance(cfg, c, e) == Some(c')
    ensures Asking(cfg, c'.s, c'.j)
  {
  }

  lemma EnterAsking(cfg: Config, c: Snap, e: Event, c': Snap)
    requires Asking(cfg, c.s, c.j) && e.Enter? && Legal(c, e) && Advance(cfg, c, e) == Some(c')
    ensures Asking(cfg, c'.s, c'.j)
  {
  }

  lemma SettledAsking(cfg: Config, c: Snap, e: Event, c': Snap)
    requires Bracketed(c.s, c.j) && (e.Opcode? || e.Exit?) && Legal(c, e) && Advance(cfg, c, e) == Some(c')
    ensures Asking(cfg, c'.s, c'.j)
  {
    if e.Opcode? {
      OpcodeBracketed(cfg, c, e, c');
      LegalOpcode(cfg, c, e, c');
    } else {
      ExitBracketed(cfg, c, e, c');
      LegalExit(cfg, c, e, c');
    }
  }

  lemma OtherAsking(cfg: Config, c: Snap, e: Event, c': Snap)
    requires Bracketed(c.s, c.j) && Asking(cfg, c.s, c.j) && !e.Call? && !e.Enter? && !e.Opcode? && !e.Exit?
    requires Legal(c, e) && Advance(cfg, c, e) == Some(c')
    ensures Asking(cfg, c'.s, c'.j)
  {
    QuietStep(cfg, c, e, c');
  }

  lemma StepAsking(cfg: Config, c: Snap, e: Event, c': Snap)
    requires Bracketed(c.s, c.j) && Calling(cfg, c.s, c.j) && Asking(cfg, c.s, c.j)
    requires Legal(c, e) && Advance(cfg, c, e) == Some(c')
    ensures Asking(cfg, c'.s, c'.j)
  {
    match e
    case Call(_) => CallAsking(cfg, c, e, c');
    case Enter(_, _, _, _) => EnterAsking(cfg, c, e, c');
    case Opcode(_, _, _, _, _) => SettledAsking(cfg, c, e, c');
    case Exit(_, _) => SettledAsking(cfg, c, e, c');
    case _ => OtherAsking(cfg, c, e, c');
  }

  lemma MoreSee(cfg: Config, births: seq<Birth>, b: Birth)
    requires AllSeePranks(cfg, births) && SeesPrank(cfg, births, b)
    ensures AllSeePranks(cfg, births + [b])
  {
    forall k | 0 <= k < |births| + 1 ensures SeesPrank(cfg, births + [b], (births + [b])[k]) {
      if k < |births| { assert SeesPrank(cfg, births, births[k]); }
    }
  }

  /** The frame that a call opens. */
  lemma OpenSees(cfg: Config, c: Snap, e: Event, c': Snap)
    requires Aligned(c.s, c.j) && Bracketed(c.s, c.j) && Asking(cfg, c.s, c.j) && AllSeePranks(cfg, c.j.births)
    requires e.Opcode? && Opening(c.j) && Legal(c, e) && Advance(cfg, c, e) == Some(c')
    ensures AllSeePranks(cfg, c'.j.births)
  {
    var b := OpenedBirth(cfg, c, e, c');
    var n := |c.s.stack|;
    if n > 0 {
      assert RecordOf(c.s.stack[n - 1], c.j.births[c.j.live[n - 1]]);
    }
    MoreSee(cfg, c.j.births, b);
  }

  lemma StepSees(cfg: Config, c: Snap, e: Event, c': Snap)
    requires Aligned(c.s, c.j) && Bracketed(c.s, c.j) && Asking(cfg, c.s, c.j) && AllSeePranks(cfg, c.j.births)
    requires Legal(c, e) && Advance(cfg, c, e) == Some(c')
    ensures AllSeePranks(cfg, c'.j.births)
  {
    match e
    case Opcode(_, _, _, _, _) =>
      if Opening(c.j) { OpenSees(cfg, c, e, c'); } else { LegalOpcode(cfg, c, e, c'); }
    case Exit(_, _) => LegalExit(cfg, c, e, c');
    case _ =>
  }

  lemma {:induction false} ExecSees(cfg: Config, c: Snap, es: seq<Event>, c': Snap)
    requires Sound(cfg, c) && Asking(cfg, c.s, c.j) && AllSeePranks(cfg, c.j.births) && Leads(cfg, c, es, c')
    ensures AllSeePranks(cfg, c'.j.births)
    decreases |es|
  {
    if es != [] {
      var c1 := Advance(cfg, c, es[0]).value;
      StepSound(cfg, c, es[0], c1);
      StepAsking(cfg, c, es[0], c1);
      StepSees(cfg, c, es[0], c1);
      ExecSees(cfg, c1, es[1..], c');
    }
  }

  /**
   Pranked calls. Over every legal run of a fresh host take any frame that another frame opened by CALL, CREATE
   or CREATE2. Its caller is the deterministic deployer if the call went through it, else the sender of the prank
   of the frame below, else that frame itself. Its tx.origin is that of the prank if the prank has one, has no
   sender, and the call did not go through the deployer; otherwise it is what it was before the call.
   */
  lemma PrankedCalls(cfg: Config, s: State, es: seq<Event>, c: Snap, k: nat)
    requires Fresh(s) && Leads(cfg, Snap(s, EMPTY_JOURNAL), es, c)
    requires k < |c.j.births| && c.j.births[k].parent.Some? && IsTransaction(c.j.births[k].op)
    ensures c.j.births[k].parent.value < |c.j.births|
    ensures var b := c.j.births[k];
            var self := c.j.births[b.parent.value].scope.self;
            && b.scope.caller == PrankedCaller(cfg, b.op, b.prank, self)
            && b.origin == PrankedOrigin(cfg, b.op, b.prank, b.before)
    ensures var b := c.j.births[k];
            HasOrigin(b.prank) && b.prank.value.origin.value != b.before ==>
              (b.origin == b.prank.value.origin.value <==>
               b.prank.value.sender.None? && !ViaDeployer(cfg, b.op, b.prank))
  {
    FreshSound(cfg, s);
    ExecSees(cfg, Snap(s, EMPTY_JOURNAL), es, c);
    assert SeesPrank(cfg, c.j.births, c.j.births[k]);
  }

  // ----- a prank with both a sender and an origin -----

  const BOTH := Prank(0, Some(8), Some(9), 0, true, false)
  const CALLEE := Scope(1, 5, 8, None, [], false, [])

  /** A script that pranks both msg.sender, to 8, and tx.origin, to 9, has entered a CALL to account 5. */
  function InBothCall(): Snap {
    var c := ScriptAt(1, Some(BOTH), 1);
    c.(j := c.j.(brackets := c.j.brackets + [Bracket(Some(0), CALL, 8, 5, 0, 0, 0, false, None)]))
  }

  lemma BothCallOpens(cfg: Config) returns (c': Snap)
    ensures Legal(InBothCall(), Opcode(0, 0, 2, CALLEE, 0))
    ensures Advance(cfg, InBothCall(), Opcode(0, 0, 2, CALLEE, 0)) == Some(c') && |c'.j.births| == 2
    ensures c'.j.births[1].prank == Some(BOTH) && c'.j.births[1].scope == CALLEE && c'.j.births[1].origin == 0
  {
    var c, e := InBothCall(), Opcode(0, 0, 2, CALLEE, 0);
    assert Bracketed(c.s, c.j);
    c' := Advance(cfg, c, e).value;
    var b := OpenedBirth(cfg, c, e, c');
  }

  lemma BothCall(cfg: Config) returns (es: seq<Event>, c': Snap)
    ensures Leads(cfg, ScriptAt(1, Some(BOTH), 1), es, c') && |c'.j.births| == 2
    ensures c'.j.births[1].prank == Some(BOTH) && c'.j.births[1].scope == CALLEE && c'.j.births[1].origin == 0
  {
    var c, e1, e2, e3 := ScriptAt(1, Some(BOTH), 1), Call(2), Enter(1, CALL, 8, 5), Opcode(0, 0, 2, CALLEE, 0);
    c' := BothCallOpens(cfg);
    ThreeLead(cfg, c, e1, Advance(cfg, c, e1).value, e2, InBothCall(), e3, c');
    es := [e1, e2, e3];
  }

  /** From a fresh host: the callee sees the sender of such a prank, and not its tx.origin. */
  lemma SenderHidesOrigin(cfg: Config) returns (es: seq<Event>, c: Snap)
    ensures Fresh(EMPTY_HOST) && Leads(cfg, Snap(EMPTY_HOST, EMPTY_JOURNAL), es, c) && |c.j.births| == 2
    ensures c.j.births[1].prank.Some? && c.j.births[1].prank.value.sender == Some(8)
    ensures c.j.births[1].prank.value.origin == Some(9)
    ensures c.j.births[1].scope.caller == 8 && c.j.births[1].origin == 0
  {
    var before := PrankedScript(cfg, Some(8), Some(9), true, false);
    var rest;
    rest, c := BothCall(cfg);
    es := before + rest;
    LeadsOn(cfg, Snap(EMPTY_HOST, EMPTY_JOURNAL), before, ScriptAt(1, Some(BOTH), 1), rest, c);
  }
}
