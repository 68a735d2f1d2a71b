/** What cheatcodes and calls are answered, over every run, by the order that the ledger says is in force. */
module Answers {
  import opened Basics
  import opened CallFrames
  import opened Ledgers

  /** The order in force for the frame on top, if any. */
  function InForce(notes: seq<Note>): Option<Order> {
    if notes == [] then None else TopNote(notes).order
  }

  /**
   After any run: setting a prank or broadcast is refused exactly if an order of the other kind is in force,
   stopping a broadcast is refused exactly if a frame runs and no broadcast is in force, and stopping a prank
   never is.
   */
  lemma CheatsAnswered(cfg: Config, s: State, es: seq<Event>, s': State)
    requires s.stack == [] && Run(cfg, s, es) == Some(s')
    ensures var order := InForce(LedgerOf(BLANK, es).notes);
            && (SetPrankRefusal(s', false) ==
                if order.Some? && order.value.broadcast then ActiveBroadcast else NotRefused)
            && (SetPrankRefusal(s', true) ==
                if order.Some? && !order.value.broadcast then ActivePrank else NotRefused)
            && StopPrankRefusal(s', false) == NotRefused
            && (StopPrankRefusal(s', true) ==
                if s'.stack != [] && !(order.Some? && order.value.broadcast) then NoBroadcast else NotRefused)
  {
    RunAgrees(cfg, s, BLANK, es, s');
    if s'.stack != [] {
      TopAgrees(s'.stack, LedgerOf(BLANK, es).notes);
    }
  }

  /** The sender that replaces the caller under an order, if one does. */
  function SenderBy(cfg: Config, p: Note): Option<Address> {
    if p.order.None? then None
    else if cfg.useCreate2Deployer && p.op == CREATE2 && p.order.value.broadcast then Some(DETERMINISTIC_DEPLOYER)
    else p.order.value.sender
  }

  /**
   After any run, whoever makes a call: the cheatcode precompile, and a caller without an order in force, keeps
   its own address and tx.origin. Otherwise a CREATE2 under a broadcast goes out from the deployer if the host
   is told so; else the sender of the order replaces the caller; else its origin replaces tx.origin.
   */
  lemma CallsAnswered(cfg: Config, s: State, es: seq<Event>, s': State, caller: Address)
    requires s.stack == [] && Run(cfg, s, es) == Some(s')
    ensures var notes := LedgerOf(BLANK, es).notes;
            && (InForce(notes).None? || caller == VM_ADDR ==> CallerOf(cfg, s', caller) == (caller, s'.origin))
            && (InForce(notes).Some? && caller != VM_ADDR ==>
                  match SenderBy(cfg, TopNote(notes))
                  case Some(sender) => CallerOf(cfg, s', caller) == (sender, s'.origin)
                  case None =>
                    var origin := TopNote(notes).order.value.origin;
                    CallerOf(cfg, s', caller) == (caller, if origin.Some? then origin.value else s'.origin))
  {
    RunAgrees(cfg, s, BLANK, es, s');
    if s'.stack != [] {
      TopAgrees(s'.stack, LedgerOf(BLANK, es).notes);
    }
  }
}
