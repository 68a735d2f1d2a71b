/**
 Which calls into the host count a nonce. The host itself counts only the CALLs and CREATE2s made under a
 broadcast, one each, for the account they go out from; a CREATE is counted by the EVM, and everything else
 that changes a nonce sets it outright.
 */
module Nonces {
  import opened Basics
  import opened CallFrames
  import opened Ledgers

  /** Event `e` enters a CALL or CREATE2 to an ordinary account, made by `self` under a broadcast as `a`. */
  predicate Transaction(e: Event, order: Option<Order>, self: Address, a: Address) {
    && e.Enter? && (e.typ == CALL || e.typ == CREATE2)
    && e.to != VM_ADDR && e.to != CONSOLE_ADDR
    && order.Some? && order.value.broadcast
    && a == if order.value.sender.Some? then order.value.sender.value else self
  }

  /** `e` counts for `a` when it finds the host in `s`. */
  predicate CountsFor(s: State, e: Event, a: Address) {
    s.stack != [] && Transaction(e, OrderOf(Top(s).prank), Top(s).ctx.self, a)
  }

  predicate Sets(e: Event, a: Address) {
    e.SetNonce? && e.account == a
  }

  lemma {:induction false} UnwindKeepsNonces(cfg: Config, s: State, depth: int, s': State)
    requires Unwind(cfg, s, depth) == Some(s')
    ensures s'.nonces == s.nonces
    decreases |s.stack|
  {
    if s.stack != [] && Top(s).depth > depth {
      UnwindKeepsNonces(cfg, Pop(cfg, s).value, depth, s');
    }
  }

  /** Every step sets the nonce of `a`, counts it up by one, or leaves it. */
  lemma StepNonce(cfg: Config, s: State, e: Event, s': State, a: Address)
    requires Step(cfg, s, e) == Some(s')
    ensures NonceOf(s'.nonces, a) ==
            if Sets(e, a) then e.nonce
            else if CountsFor(s, e, a) then Plus(NonceOf(s.nonces, a), 1)
            else NonceOf(s.nonces, a)
  {
    match e
    case Opcode(_, _, depth, _, _) => UnwindKeepsNonces(cfg, s, depth, Unwind(cfg, s, depth).value);
    case Exit(depth, gasUsed) => UnwindKeepsNonces(cfg, Spend(s, gasUsed), depth, s');
    case _ =>
  }

  // ----- runs -----

  /** The same, said by the ledger. */
  predicate Counts(notes: seq<Note>, e: Event, a: Address) {
    notes != [] && Transaction(e, TopNote(notes).order, TopNote(notes).self, a)
  }

  /** How many of the events count for `a`, kept from the events alone. */
  function Tally(l: Ledger, es: seq<Event>, a: Address): nat
    decreases |es|
  {
    if es == [] then 0
    else (if Counts(l.notes, es[0], a) then 1 else 0) + Tally(Heed(l, es[0]), es[1..], a)
  }

  lemma CountsAlike(s: State, l: Ledger, e: Event, a: Address)
    requires AllAgree(s.stack, l.notes)
    ensures CountsFor(s, e, a) <==> Counts(l.notes, e, a)
  {
    if s.stack != [] {
      TopAgrees(s.stack, l.notes);
    }
  }

  lemma {:induction false} RunNonce(cfg: Config, s: State, l: Ledger, es: seq<Event>, s': State, a: Address)
    requires AllAgree(s.stack, l.notes) && Run(cfg, s, es) == Some(s')
    requires forall k :: 0 <= k < |es| ==> !Sets(es[k], a)
    ensures NonceOf(s'.nonces, a) == Plus(NonceOf(s.nonces, a), Tally(l, es, a))
    decreases |es|
  {
    if es != [] {
      var s1 := Step(cfg, s, es[0]).value;
      StepNonce(cfg, s, es[0], s1, a);
      CountsAlike(s, l, es[0], a);
      StepAgrees(cfg, s, l, es[0], s1);
      RunNonce(cfg, s1, Heed(l, es[0]), es[1..], s', a);
      PlusAssoc(NonceOf(s.nonces, a), if Counts(l.notes, es[0], a) then 1 else 0, Tally(Heed(l, es[0]), es[1..], a));
    }
  }

  /**
   The law of nonces. Over every run from an empty stack in which nothing sets the nonce of `a`, the nonce of `a`
   rises by exactly the number of CALLs and CREATE2s to ordinary accounts that were entered under a broadcast
   order as `a`, modulo 2^64.
   */
  lemma NonceLaw(cfg: Config, s: State, es: seq<Event>, s': State, a: Address)
    requires s.stack == [] && Run(cfg, s, es) == Some(s')
    requires forall k :: 0 <= k < |es| ==> !Sets(es[k], a)
    ensures NonceOf(s'.nonces, a) == (NonceOf(s.nonces, a) + Tally(BLANK, es, a)) % TWO_64
  {
    RunNonce(cfg, s, BLANK, es, s', a);
  }
}
