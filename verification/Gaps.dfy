/**
 A session of a broadcasting script in which a number is skipped: its first CALL goes to an account without code,
 so it counts a nonce and opens no frame.
 */
module Gaps {
  import opened Basics
  import opened CallFrames
  import opened Journals
  import opened Exactness
  import opened Nesting
  import opened Nonces
  import opened Numbering
  import opened Scripts

  /** `es` is a session from `c` to `c'` with these CALLs. */
  ghost predicate SessionTo(cfg: Config, c: Snap, es: seq<Event>, c': Snap, i: nat, p: nat, a: Address,
                            items: seq<Item>)
  {
    Session(cfg, c, es, i, a) && Exec(cfg, c, es) == Some(c') && Items(cfg, c, es, p) == items
  }

  lemma StepSession(cfg: Config, c: Snap, e: Event, c1: Snap, es: seq<Event>, c': Snap,
                    i: nat, p: nat, a: Address, items: seq<Item>)
    requires Legal(c, e) && Advance(cfg, c, e) == Some(c1) && Steady(c, e, c1, i, a)
    requires SessionTo(cfg, c1, es, c', i, p, a, items)
    ensures SessionTo(cfg, c, [e] + es, c', i, p, a, Settled(c.j, e, p) + items)
  {
    assert ([e] + es)[1..] == es;
  }

  /** The script broadcasts repeatedly, as itself. */
  function Broadcaster(pc: U64, nonces: map<Address, U64>): Snap {
    var c := ScriptAt(pc, Some(Prank(0, None, None, 0, true, true)), 1);
    c.(s := c.s.(nonces := nonces))
  }

  /** In a CALL to an account. */
  function CallingOut(pc: U64, nonces: map<Address, U64>, to: Address, nonce: U64): Snap {
    var c := Broadcaster(pc, nonces);
    c.(j := c.j.(brackets := c.j.brackets + [Bracket(Some(0), CALL, 2, to, nonce, Plus(nonce, 1), 0, false, None)]))
  }

  const REPORTED := Scope(1, 5, 2, None, [], false, [])

  lemma MakesCallOut(cfg: Config, pc: U64, nonces: map<Address, U64>, to: Address, es: seq<Event>, c': Snap,
                     items: seq<Item>)
    requires to != VM_ADDR && to != CONSOLE_ADDR
    requires var n := NonceOf(nonces, 2);
             SessionTo(cfg, CallingOut(pc, nonces[2 := Plus(n, 1)], to, n), es, c', 0, 0, 2, items)
    ensures SessionTo(cfg, Broadcaster(pc, nonces), [Call(2)] + ([Enter(1, CALL, 2, to)] + es), c', 0, 0, 2, items)
  {
    var n := NonceOf(nonces, 2);
    var c, c2 := Broadcaster(pc, nonces), CallingOut(pc, nonces[2 := Plus(n, 1)], to, n);
    var c1 := Advance(cfg, c, Call(2)).value;
    StepSession(cfg, c1, Enter(1, CALL, 2, to), c2, es, c', 0, 0, 2, items);
    assert [] + items == items;
    StepSession(cfg, c, Call(2), c1, [Enter(1, CALL, 2, to)] + es, c', 0, 0, 2, items);
  }

  lemma LeafLeft(cfg: Config, nonces: map<Address, U64>, to: Address, nonce: U64)
    requires to != VM_ADDR && to != CONSOLE_ADDR
    ensures Legal(CallingOut(1, nonces, to, nonce), Exit(1, 0))
    ensures Advance(cfg, CallingOut(1, nonces, to, nonce), Exit(1, 0)) == Some(Broadcaster(1, nonces))
  {
    var c' := Advance(cfg, CallingOut(1, nonces, to, nonce), Exit(1, 0)).value;
    assert c'.s.stack == Broadcaster(1, nonces).s.stack;
    assert c'.j.brackets == Broadcaster(1, nonces).j.brackets && c'.j.leafGas == [0];
  }

  lemma NextCallOut(cfg: Config, nonces: map<Address, U64>)
    ensures Legal(Broadcaster(1, nonces), Opcode(2, CALL, 1, SCRIPT, 0))
    ensures Advance(cfg, Broadcaster(1, nonces), Opcode(2, CALL, 1, SCRIPT, 0)) == Some(Broadcaster(2, nonces))
  {
    var c' := Advance(cfg, Broadcaster(1, nonces), Opcode(2, CALL, 1, SCRIPT, 0)).value;
    assert c'.s.stack == Broadcaster(2, nonces).s.stack;
  }

  /** The CALL to account 5 has opened a frame. */
  function InCallee(nonces: map<Address, U64>, nonce: U64): Snap {
    var c := CallingOut(2, nonces, 5, nonce);
    var f := Frame(2, 0, 0, 0, [], REPORTED, None, 0, NonceOf(nonces, 2));
    var b := Birth(Some(0), CALL, Top(c.s).prank, 0, 2, REPORTED, NonceOf(nonces, 2), 0, nonce, 0);
    Snap(c.s.(stack := c.s.stack + [f]),
         c.j.(births := c.j.births + [b], live := [0, 1], brackets := OpenBracket(c.j.brackets, 1),
              ownGas := [0, 0], leafGas := [0, 0]))
  }

  lemma CalleeOpens(cfg: Config, nonces: map<Address, U64>, nonce: U64)
    requires NonceOf(nonces, 2) == Plus(nonce, 1)
    ensures Legal(CallingOut(2, nonces, 5, nonce), Opcode(0, 0, 2, REPORTED, 0))
    ensures Advance(cfg, CallingOut(2, nonces, 5, nonce), Opcode(0, 0, 2, REPORTED, 0)) == Some(InCallee(nonces, nonce))
  {
    var c, e := CallingOut(2, nonces, 5, nonce), Opcode(0, 0, 2, REPORTED, 0);
    assert Bracketed(c.s, c.j);
    var c' := Advance(cfg, c, e).value;
    LegalOpcode(cfg, c, e, c');
    OpenedIs(cfg, nonces, nonce, c'.s);
  }

  /** What the opening of the frame leaves is that. */
  lemma OpenedIs(cfg: Config, nonces: map<Address, U64>, nonce: U64, s': State)
    requires s' == Settle(CallingOut(2, nonces, 5, nonce).s, 0, 0, 2, REPORTED, 0)
    ensures s' == InCallee(nonces, nonce).s
    ensures Open(CallingOut(2, nonces, 5, nonce).j, s', 2, REPORTED) == InCallee(nonces, nonce).j
  {
    var j' := Open(CallingOut(2, nonces, 5, nonce).j, s', 2, REPORTED);
    assert s'.stack == InCallee(nonces, nonce).s.stack;
    assert j'.births == InCallee(nonces, nonce).j.births && j'.live == [0, 1] && j'.ownGas == j'.leafGas == [0, 0];
  }

  lemma CalleeStops(cfg: Config, nonces: map<Address, U64>, nonce: U64) returns (c': Snap)
    ensures Legal(InCallee(nonces, nonce), Exit(1, 0))
    ensures Advance(cfg, InCallee(nonces, nonce), Exit(1, 0)) == Some(c')
    ensures |c'.s.stack| == 1 && c'.j.live == [0] && c'.s.nonces == nonces
  {
    var c := InCallee(nonces, nonce);
    assert Bracketed(c.s, c.j);
    var s1 := Pop(cfg, Spend(c.s, 0)).value;
    assert Unwind(cfg, Spend(c.s, 0), 1) == Some(s1);
    c' := Advance(cfg, c, Exit(1, 0)).value;
    LegalExit(cfg, c, Exit(1, 0), c');
  }

  /** The callee opened a frame; now it stops. */
  lemma CalleeSession(cfg: Config, nonces: map<Address, U64>, nonce: U64) returns (c': Snap)
    ensures SessionTo(cfg, InCallee(nonces, nonce), [Exit(1, 0)] + [], c', 0, 0, 2, []) && |c'.s.stack| == 1
  {
    c' := CalleeStops(cfg, nonces, nonce);
    assert SessionTo(cfg, c', [], c', 0, 0, 2, []);
    StepSession(cfg, InCallee(nonces, nonce), Exit(1, 0), c', [], c', 0, 0, 2, []);
  }

  /** A CALL that opens a frame, to account 5, which stops at once. */
  lemma FramedCall(cfg: Config, nonces: map<Address, U64>, nonce: U64) returns (es: seq<Event>, c': Snap)
    requires NonceOf(nonces, 2) == Plus(nonce, 1)
    ensures SessionTo(cfg, CallingOut(2, nonces, 5, nonce), es, c', 0, 0, 2, [Item(nonce, true)]) && |c'.s.stack| == 1
  {
    var c, e := CallingOut(2, nonces, 5, nonce), Opcode(0, 0, 2, REPORTED, 0);
    CalleeOpens(cfg, nonces, nonce);
    c' := CalleeSession(cfg, nonces, nonce);
    StepSession(cfg, c, e, InCallee(nonces, nonce), [Exit(1, 0)] + [], c', 0, 0, 2, []);
    es := [e] + ([Exit(1, 0)] + []);
  }

  /** The script gets to its second CALL, which opens a frame. */
  lemma SecondCall(cfg: Config, nonces: map<Address, U64>) returns (es: seq<Event>, c': Snap)
    requires nonces == map[2 := 1]
    ensures SessionTo(cfg, Broadcaster(1, nonces), es, c', 0, 0, 2, [Item(1, true)]) && |c'.s.stack| == 1
  {
    var items := [Item(1, true)];
    es, c' := FramedCall(cfg, nonces[2 := 2], 1);
    MakesCallOut(cfg, 2, nonces, 5, es, c', items);
    es := [Call(2)] + ([Enter(1, CALL, 2, 5)] + es);
    NextCallOut(cfg, nonces);
    StepSession(cfg, Broadcaster(1, nonces), Opcode(2, CALL, 1, SCRIPT, 0), Broadcaster(2, nonces), es, c',
                0, 0, 2, items);
    es := [Opcode(2, CALL, 1, SCRIPT, 0)] + es;
    assert [] + items == items;
  }

  /** Two CALLs: the first to an account without code, the second opens a frame. */
  lemma TwoCalls(cfg: Config) returns (es: seq<Event>, c': Snap)
    ensures SessionTo(cfg, Broadcaster(1, map[]), es, c', 0, 0, 2, [Item(0, false), Item(1, true)]) && |c'.s.stack| == 1
  {
    var nonces: map<Address, U64> := map[2 := 1];
    es, c' := SecondCall(cfg, nonces);
    LeafLeft(cfg, nonces, 7, 0);
    StepSession(cfg, CallingOut(1, nonces, 7, 0), Exit(1, 0), Broadcaster(1, nonces), es, c', 0, 0, 2, [Item(1, true)]);
    es := [Exit(1, 0)] + es;
    assert map[][2 := 1] == nonces && [Item(0, false)] + [Item(1, true)] == [Item(0, false), Item(1, true)];
    MakesCallOut(cfg, 1, map[], 7, es, c', [Item(0, false), Item(1, true)]);
    es := [Call(2)] + ([Enter(1, CALL, 2, 7)] + es);
  }

  /**
   A gap. From a fresh host, a script broadcasts repeatedly and makes two CALLs of which only the second opens a
   frame: the only broadcast about them carries the number 1, and 0 is never used.
   */
  lemma NumberSkipped(cfg: Config) returns (es0: seq<Event>, c: Snap, es: seq<Event>, c': Snap)
    ensures Fresh(EMPTY_HOST) && Leads(cfg, Snap(EMPTY_HOST, EMPTY_JOURNAL), es0, c)
    ensures Broadcasting(c, 0, 0, 2) && !InCall(c.j, 0) && NonceOf(c.s.nonces, 2) == 0
    ensures SessionTo(cfg, c, es, c', 0, 0, 2, [Item(0, false), Item(1, true)])
    ensures |c.s.broadcasts| <= |c'.s.broadcasts| == |ReportedIds(c'.j.births, c'.j.closed)|
    ensures NewCallReports(c, c', 0) == [1]
  {
    es0 := PrankedScript(cfg, None, None, true, true);
    c := Broadcaster(1, map[]);
    es, c' := TwoCalls(cfg);
    ConsecutiveNumbering(cfg, EMPTY_HOST, es0, c, es, c', 0, 0, 2);
    assert [Item(0, false), Item(1, true)][1..] == [Item(1, true)];
  }
}
