/**
 The frames that one frame opens are popped in the order in which they were opened, over every run: while one of
 them is on the stack, no other is opened. So the order of the reports about them is the order of the calls.
 */
module Siblings {
  import opened Basics
  import opened CallFrames
  import opened Journals
  import opened Exactness

  /** The numbers from `from` up to `to`. */
  function Ids(from: nat, to: nat): (r: seq<nat>)
    requires from <= to
    ensures |r| == to - from && forall k :: 0 <= k < |r| ==> r[k] == from + k
  {
    seq(to - from, k requires 0 <= k => from + k)
  }

  lemma IdsJoin(a: nat, b: nat, c: nat)
    requires a <= b <= c
    ensures Ids(a, c) == Ids(a, b) + Ids(b, c)
  {
  }

  predicate ChildOf(births: seq<Birth>, id: nat, p: nat) {
    id < |births| && births[id].parent == Some(p)
  }

  /** Those among `ids` that frame `p` opened. */
  function Children(births: seq<Birth>, ids: seq<nat>, p: nat): seq<nat> {
    if ids == [] then []
    else
      var last := ids[|ids| - 1];
      Children(births, ids[..|ids| - 1], p) + if ChildOf(births, last, p) then [last] else []
  }

  /** Popped frames before live ones, the children of `p` are in the order they were opened. */
  ghost predicate InOrder(j: Journal, p: nat) {
    Children(j.births, j.closed + j.live, p) == Children(j.births, Ids(0, |j.births|), p)
  }

  lemma {:induction false} ChildrenJoin(births: seq<Birth>, a: seq<nat>, b: seq<nat>, p: nat)
    ensures Children(births, a + b, p) == Children(births, a, p) + Children(births, b, p)
  {
    if b == [] {
      assert a + b == a;
    } else {
      assert (a + b)[..|a + b| - 1] == a + b[..|b| - 1];
      ChildrenJoin(births, a, b[..|b| - 1], p);
    }
  }

  lemma {:induction false} ChildrenGrow(births: seq<Birth>, b: Birth, ids: seq<nat>, p: nat)
    requires forall k :: 0 <= k < |ids| ==> ids[k] < |births|
    ensures Children(births + [b], ids, p) == Children(births, ids, p)
  {
    if ids != [] {
      ChildrenGrow(births, b, ids[..|ids| - 1], p);
    }
  }

  lemma {:induction false} NoChildren(births: seq<Birth>, ids: seq<nat>, p: nat)
    requires forall k :: 0 <= k < |ids| ==> !ChildOf(births, ids[k], p)
    ensures Children(births, ids, p) == []
  {
    if ids != [] {
      NoChildren(births, ids[..|ids| - 1], p);
    }
  }

  /** The live frames up to frame `i` are no children of frame `i`. */
  lemma LiveNoChildren(s: State, j: Journal, i: nat)
    requires Aligned(s, j) && Accounted(j) && i < |j.live|
    ensures Children(j.births, j.live[..i + 1], j.live[i]) == []
  {
    var ids := j.live[..i + 1];
    forall k | 0 <= k < |ids| ensures !ChildOf(j.births, ids[k], j.live[i]) {
      if k > 0 {
        assert Link(s, j, k);
        LiveDistinct(j, k - 1, i);
      }
    }
    NoChildren(j.births, ids, j.live[i]);
  }

  /** If the top frame is a child of `p`, no other live frame is. */
  lemma TopChildAlone(s: State, j: Journal, p: nat)
    requires Aligned(s, j) && Accounted(j) && j.live != [] && ChildOf(j.births, j.live[|j.live| - 1], p)
    ensures Children(j.births, j.live[..|j.live| - 1], p) == []
  {
    var n := |j.live|;
    assert n > 1 ==> Link(s, j, n - 1);
    LiveNoChildren(s, j, n - 2);
    assert n - 2 + 1 == n - 1;
  }

  lemma MoveTop(births: seq<Birth>, closed: seq<nat>, rest: seq<nat>, top: nat, p: nat)
    requires ChildOf(births, top, p) ==> Children(births, rest, p) == []
    ensures Children(births, closed + (rest + [top]), p) == Children(births, (closed + [top]) + rest, p)
  {
    ChildrenJoin(births, closed, rest + [top], p);
    ChildrenJoin(births, rest, [top], p);
    ChildrenJoin(births, closed + [top], rest, p);
    ChildrenJoin(births, closed, [top], p);
  }

  lemma CloseInOrder(s: State, j: Journal, p: nat)
    requires Aligned(s, j) && Accounted(j) && InOrder(j, p) && j.live != []
    ensures InOrder(CloseTop(j), p)
  {
    var n := |j.live|;
    if ChildOf(j.births, j.live[n - 1], p) {
      TopChildAlone(s, j, p);
    }
    assert j.live == j.live[..n - 1] + [j.live[n - 1]];
    MoveTop(j.births, j.closed, j.live[..n - 1], j.live[n - 1], p);
  }

  lemma {:induction false} UnwindInOrder(cfg: Config, s: State, j: Journal, depth: int, s': State, p: nat)
    requires Exact(cfg, Snap(s, j)) && InOrder(j, p) && Unwind(cfg, s, depth) == Some(s')
    ensures InOrder(Close(j, depth), p)
    decreases |s.stack|
  {
    DepthsAgree(s, j);
    if s.stack != [] && Top(s).depth > depth {
      var s1 := Pop(cfg, s).value;
      CloseInOrder(s, j, p);
      PopExact(cfg, s, j, s1);
      UnwindInOrder(cfg, s1, CloseTop(j), depth, s', p);
    }
  }

  lemma OpenInOrder(j: Journal, s': State, depth: int, scope: Scope, p: nat)
    requires Accounted(j) && InOrder(j, p) && forall k :: 0 <= k < |j.live| ==> j.live[k] < |j.births|
    ensures InOrder(Open(j, s', depth, scope), p)
  {
    var b, id := BirthOf(j, s', depth, scope), |j.births|;
    var births := j.births + [b];
    ClosedKnown(j);
    assert j.closed + (j.live + [id]) == (j.closed + j.live) + [id];
    ChildrenJoin(births, j.closed + j.live, [id], p);
    ChildrenGrow(j.births, b, j.closed + j.live, p);
    assert Ids(0, id + 1) == Ids(0, id) + [id];
    ChildrenJoin(births, Ids(0, id), [id], p);
    ChildrenGrow(j.births, b, Ids(0, id), p);
  }

  lemma OpcodeInOrder(cfg: Config, c: Snap, e: Event, c': Snap, p: nat)
    requires Exact(cfg, c) && InOrder(c.j, p) && e.Opcode? && Advance(cfg, c, e) == Some(c')
    ensures InOrder(c'.j, p)
  {
    var s1, j1 := OpcodeParts(cfg, c, e, c');
    UnwindExact(cfg, c.s, c.j, e.depth, s1);
    UnwindInOrder(cfg, c.s, c.j, e.depth, s1, p);
    OpenInOrder(j1, c'.s, e.depth, e.scope, p);
  }

  lemma ExitInOrder(cfg: Config, c: Snap, e: Event, c': Snap, p: nat)
    requires Exact(cfg, c) && InOrder(c.j, p) && e.Exit? && Advance(cfg, c, e) == Some(c')
    ensures InOrder(c'.j, p)
  {
    var s1, j1 := Spend(c.s, e.gasUsed), Charge(c.j, e.gasUsed);
    TopChange(cfg, c.s, c.j, s1, j1);
    UnwindInOrder(cfg, s1, j1, e.depth, c'.s, p);
  }

  lemma StepInOrder(cfg: Config, c: Snap, e: Event, c': Snap, p: nat)
    requires Exact(cfg, c) && InOrder(c.j, p) && Advance(cfg, c, e) == Some(c')
    ensures InOrder(c'.j, p)
  {
    match e
    case Opcode(_, _, _, _, _) => OpcodeInOrder(cfg, c, e, c', p);
    case Exit(_, _) => ExitInOrder(cfg, c, e, c', p);
    case _ => QuietStep(cfg, c, e, c');
  }

  lemma {:induction false} ExecInOrder(cfg: Config, c: Snap, es: seq<Event>, c': Snap, p: nat)
    requires Exact(cfg, c) && InOrder(c.j, p) && Exec(cfg, c, es) == Some(c')
    ensures InOrder(c'.j, p)
    decreases |es|
  {
    if es != [] {
      var c1 := Advance(cfg, c, es[0]).value;
      StepExact(cfg, c, es[0], c1);
      StepInOrder(cfg, c, es[0], c1, p);
      ExecInOrder(cfg, c1, es[1..], c', p);
    }
  }

  /** Over every run of a fresh host, the frames opened by any frame are popped in the order they were opened. */
  lemma SiblingsInOrder(cfg: Config, s: State, es: seq<Event>, c: Snap, p: nat)
    requires Fresh(s) && Exec(cfg, Snap(s, EMPTY_JOURNAL), es) == Some(c)
    ensures Children(c.j.births, c.j.closed + c.j.live, p) == Children(c.j.births, Ids(0, |c.j.births|), p)
  {
    ExecInOrder(cfg, Snap(s, EMPTY_JOURNAL), es, c, p);
  }
}
