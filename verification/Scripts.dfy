/**
 A small script to make examples with: account 1 calls account 2, which sets a prank or broadcast and goes on
 to make calls. Every call is made by a CALL opcode.
 */
module Scripts {
  import opened Basics
  import opened CallFrames
  import opened Journals
  import opened Nesting

  const SCRIPT := Scope(0, 2, 1, None, [], false, [])
  const EMPTY_HOST := State([], 0, map[], [], {}, 0)

  /** The script about to make a call at `pc`, with some prank and `made` pranks set so far. */
  function ScriptAt(pc: U64, prank: Option<Prank>, made: nat): Snap {
    Snap(State([Frame(1, CALL, pc, 0, [], SCRIPT, prank, 0, 0)], 0, map[], [], {}, made),
         Journal([Birth(None, 0, None, 0, 1, SCRIPT, 0, 0, 0, 0)], [0], [],
                 [Bracket(None, CALL, 1, 2, 0, 0, 0, false, Some(0))], None, [0], [0]))
  }

  /** The script sets a prank: it calls the cheatcode precompile, and then gets to its next CALL. */
  function Cheats(sender: Option<Address>, origin: Option<Address>, repeats: bool, broadcast: bool): seq<Event> {
    [Call(2), Enter(1, CALL, 2, VM_ADDR), StartPrank(sender, origin, repeats, broadcast)] +
    [Exit(1, 0)] + [Opcode(1, CALL, 1, SCRIPT, 0)]
  }

  const START := [Call(1), Enter(0, CALL, 1, 2), Opcode(0, CALL, 1, SCRIPT, 0)]

  lemma ScriptStarts(cfg: Config)
    ensures Leads(cfg, Snap(EMPTY_HOST, EMPTY_JOURNAL), START, ScriptAt(0, None, 0))
  {
    var c0, e1, e2, e3 := Snap(EMPTY_HOST, EMPTY_JOURNAL), Call(1), Enter(0, CALL, 1, 2), Opcode(0, CALL, 1, SCRIPT, 0);
    var c1 := Advance(cfg, c0, e1).value;
    var c2 := Advance(cfg, c1, e2).value;
    var c3 := Advance(cfg, c2, e3).value;
    assert c3.s.stack == ScriptAt(0, None, 0).s.stack && c3.j.births == ScriptAt(0, None, 0).j.births;
    assert c3.j.live == [0] && c3.j.brackets == ScriptAt(0, None, 0).j.brackets && c3.j.ownGas == c3.j.leafGas == [0];
    ThreeLead(cfg, c0, e1, c1, e2, c2, e3, c3);
  }

  lemma ToNextCall(cfg: Config, prank: Option<Prank>, made: nat)
    ensures Legal(ScriptAt(0, prank, made), Opcode(1, CALL, 1, SCRIPT, 0))
    ensures Advance(cfg, ScriptAt(0, prank, made), Opcode(1, CALL, 1, SCRIPT, 0)) == Some(ScriptAt(1, prank, made))
  {
    var c' := Advance(cfg, ScriptAt(0, prank, made), Opcode(1, CALL, 1, SCRIPT, 0)).value;
    assert c'.s.stack == ScriptAt(1, prank, made).s.stack;
  }

  /** The script inside its call to the cheatcode precompile. */
  function InCheat(prank: Option<Prank>, made: nat): Snap {
    var c := ScriptAt(0, prank, made);
    c.(j := c.j.(brackets := c.j.brackets + [Bracket(Some(0), CALL, 2, VM_ADDR, 0, 0, 0, false, None)]))
  }

  lemma LeavesCheat(cfg: Config, prank: Option<Prank>, made: nat)
    ensures Legal(InCheat(prank, made), Exit(1, 0))
    ensures Advance(cfg, InCheat(prank, made), Exit(1, 0)) == Some(ScriptAt(0, prank, made))
  {
    var c' := Advance(cfg, InCheat(prank, made), Exit(1, 0)).value;
    assert c'.s.stack == ScriptAt(0, prank, made).s.stack;
    assert c'.j.brackets == ScriptAt(0, prank, made).j.brackets && c'.j.leafGas == [0];
  }

  lemma CheatSets(cfg: Config, sender: Option<Address>, origin: Option<Address>, repeats: bool, broadcast: bool)
    ensures Legal(InCheat(None, 0), StartPrank(sender, origin, repeats, broadcast))
    ensures Advance(cfg, InCheat(None, 0), StartPrank(sender, origin, repeats, broadcast)) ==
            Some(InCheat(Some(Prank(0, sender, origin, 0, repeats, broadcast)), 1))
  {
    var prank := Some(Prank(0, sender, origin, 0, repeats, broadcast));
    assert SetPrank(InCheat(None, 0).s, sender, origin, repeats, broadcast).stack == InCheat(prank, 1).s.stack;
  }

  lemma CallsCheat(cfg: Config, sender: Option<Address>, origin: Option<Address>, repeats: bool, broadcast: bool)
    ensures Leads(cfg, ScriptAt(0, None, 0),
                  [Call(2), Enter(1, CALL, 2, VM_ADDR), StartPrank(sender, origin, repeats, broadcast)],
                  InCheat(Some(Prank(0, sender, origin, 0, repeats, broadcast)), 1))
  {
    var c, e1, e2, e3 := ScriptAt(0, None, 0), Call(2), Enter(1, CALL, 2, VM_ADDR),
                         StartPrank(sender, origin, repeats, broadcast);
    var c1 := Advance(cfg, c, e1).value;
    var prank := Some(Prank(0, sender, origin, 0, repeats, broadcast));
    CheatSets(cfg, sender, origin, repeats, broadcast);
    ThreeLead(cfg, c, e1, c1, e2, InCheat(None, 0), e3, InCheat(prank, 1));
  }

  lemma OneLeads(cfg: Config, c: Snap, e: Event, c': Snap)
    requires Legal(c, e) && Advance(cfg, c, e) == Some(c')
    ensures Leads(cfg, c, [e], c')
  {
    StepLeads(cfg, c, e, c', [], c');
    assert [e] + [] == [e];
  }

  lemma SetsPrank(cfg: Config, sender: Option<Address>, origin: Option<Address>, repeats: bool, broadcast: bool)
    ensures Leads(cfg, ScriptAt(0, None, 0), Cheats(sender, origin, repeats, broadcast),
                  ScriptAt(1, Some(Prank(0, sender, origin, 0, repeats, broadcast)), 1))
  {
    var es := [Call(2), Enter(1, CALL, 2, VM_ADDR), StartPrank(sender, origin, repeats, broadcast)];
    var prank := Some(Prank(0, sender, origin, 0, repeats, broadcast));
    CallsCheat(cfg, sender, origin, repeats, broadcast);
    LeavesCheat(cfg, prank, 1);
    OneLeads(cfg, InCheat(prank, 1), Exit(1, 0), ScriptAt(0, prank, 1));
    ToNextCall(cfg, prank, 1);
    OneLeads(cfg, ScriptAt(0, prank, 1), Opcode(1, CALL, 1, SCRIPT, 0), ScriptAt(1, prank, 1));
    LeadsOn(cfg, ScriptAt(0, None, 0), es, InCheat(prank, 1), [Exit(1, 0)], ScriptAt(0, prank, 1));
    LeadsOn(cfg, ScriptAt(0, None, 0), es + [Exit(1, 0)], ScriptAt(0, prank, 1),
            [Opcode(1, CALL, 1, SCRIPT, 0)], ScriptAt(1, prank, 1));
  }

  /** From a fresh host a legal run leads to a script with any prank or broadcast that is about to make a call. */
  lemma PrankedScript(cfg: Config, sender: Option<Address>, origin: Option<Address>, repeats: bool, broadcast: bool)
    returns (es: seq<Event>)
    ensures Leads(cfg, Snap(EMPTY_HOST, EMPTY_JOURNAL), es,
                  ScriptAt(1, Some(Prank(0, sender, origin, 0, repeats, broadcast)), 1))
  {
    ScriptStarts(cfg);
    SetsPrank(cfg, sender, origin, repeats, broadcast);
    var cheats := Cheats(sender, origin, repeats, broadcast);
    LeadsOn(cfg, Snap(EMPTY_HOST, EMPTY_JOURNAL), START, ScriptAt(0, None, 0), cheats,
            ScriptAt(1, Some(Prank(0, sender, origin, 0, repeats, broadcast)), 1));
    es := START + cheats;
  }
}
