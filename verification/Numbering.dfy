/**
 The numbers that the calls of one repeating broadcast get. While nothing else changes the nonce of the
 sender, its CALLs are numbered one after the other, whether or not they open a frame; only those that do
 are reported, in the order of the calls. So the reports are numbered without gaps exactly as long as every
 CALL opens a frame.
 */
module Numbering {
  import opened Basics
  import opened CallFrames
  import opened Journals
  import opened Exactness
  import opened OneShot
  import opened Nesting
  import opened GasAndNonces
  import opened Nonces
  import opened Siblings

  /** A CALL of a broadcasting frame: the number it took, and whether it opened a frame. */
  datatype Item = Item(nonce: U64, reported: bool)

  /** Bracket `b` is a CALL made by frame `p` to an ordinary account. */
  predicate CallBy(b: Bracket, p: nat) {
    b.caller == Some(p) && b.typ == CALL && b.to != VM_ADDR && b.to != CONSOLE_ADDR
  }

  predicate InCall(j: Journal, p: nat) {
    Opening(j) && CallBy(LastBracket(j), p)
  }

  /** The CALL of frame `p` that is settled by `e`: by the first opcode it runs, or by leaving without any. */
  function Settled(j: Journal, e: Event, p: nat): seq<Item> {
    if InCall(j, p) && (e.Opcode? || e.Exit?) then [Item(LastBracket(j).preNonce, e.Opcode?)] else []
  }

  ghost function Items(cfg: Config, c: Snap, es: seq<Event>, p: nat): seq<Item>
    decreases |es|
  {
    if es == [] || Advance(cfg, c, es[0]).None? then []
    else Settled(c.j, es[0], p) + Items(cfg, Advance(cfg, c, es[0]).value, es[1..], p)
  }

  /** Over this step frame `i` and its prank stay, and nothing but a CALL of that frame changes the nonce of `a`. */
  predicate Steady(c: Snap, e: Event, c': Snap, i: nat, a: Address) {
    && !Meddles(c.s, e, i)
    && i < |c.j.live| && i < |c'.j.live| && c'.j.live[i] == c.j.live[i]
    && !Sets(e, a) && (CountsFor(c.s, e, a) ==> e.typ == CALL && i + 1 == |c.s.stack|)
  }

  ghost predicate Session(cfg: Config, c: Snap, es: seq<Event>, i: nat, a: Address)
    decreases |es|
  {
    es != [] ==>
      && Legal(c, es[0]) && Advance(cfg, c, es[0]).Some?
      && Steady(c, es[0], Advance(cfg, c, es[0]).value, i, a)
      && Session(cfg, Advance(cfg, c, es[0]).value, es[1..], i, a)
  }

  /** Frame `i`, numbered `p`, broadcasts repeatedly as `a`. */
  predicate Broadcasting(c: Snap, i: nat, p: nat, a: Address) {
    && i < |c.s.stack| && i < |c.j.live| && c.j.live[i] == p
    && c.s.stack[i].prank.Some? && c.s.stack[i].prank.value.broadcast && c.s.stack[i].prank.value.repeats
    && SenderOf(c.s.stack[i]) == a
  }

  /** `next` is the number that the next CALL of frame `p` takes, or that the one being made took. */
  predicate NextNumber(c: Snap, p: nat, a: Address, next: U64) {
    if InCall(c.j, p)
    then LastBracket(c.j).preNonce == next && NonceOf(c.s.nonces, a) == Plus(next, 1)
    else NonceOf(c.s.nonces, a) == next
  }

  /** Only the frame on top is making a call. */
  lemma CallerIsTop(c: Snap, i: nat)
    requires Accounted(c.j) && Bracketed(c.s, c.j) && i < |c.j.live|
    ensures i + 1 < |c.s.stack| ==> !InCall(c.j, c.j.live[i])
  {
    if i + 1 < |c.j.live| {
      LiveDistinct(c.j, i, |c.j.live| - 1);
    }
  }

  lemma StepKeepsBirths(cfg: Config, c: Snap, e: Event, c': Snap)
    requires Advance(cfg, c, e) == Some(c')
    ensures c.j.births <= c'.j.births
  {
    if e.Opcode? {
      CloseKeepsBirths(c.j, e.depth);
    } else if e.Exit? {
      CloseKeepsBirths(Charge(c.j, e.gasUsed), e.depth);
    }
  }

  lemma AlignedScope(s: State, j: Journal, i: nat)
    requires Aligned(s, j) && i < |j.live|
    ensures i < |s.stack| && j.live[i] < |j.births| && s.stack[i].ctx == j.births[j.live[i]].scope
  {
    assert RecordOf(s.stack[i], j.births[j.live[i]]);
  }

  lemma StepBroadcasting(cfg: Config, c: Snap, e: Event, c': Snap, i: nat, p: nat, a: Address)
    requires Exact(cfg, c) && Broadcasting(c, i, p, a) && Advance(cfg, c, e) == Some(c') && Steady(c, e, c', i, a)
    ensures Broadcasting(c', i, p, a)
  {
    StepKeepsRepeating(cfg, c, e, c', i);
    StepExact(cfg, c, e, c');
    StepKeepsBirths(cfg, c, e, c');
    AlignedScope(c.s, c.j, i);
    AlignedScope(c'.s, c'.j, i);
  }

  /** A call entered by the broadcasting frame takes the next number if it is a CALL that is counted. */
  lemma EnterTakesNumber(cfg: Config, c: Snap, e: Event, c': Snap, i: nat, p: nat, a: Address, next: U64)
    requires Calling(cfg, c.s, c.j) && Broadcasting(c, i, p, a) && NextNumber(c, p, a, next)
    requires |c.j.live| == |c.s.stack| && i + 1 == |c.s.stack|
    requires e.Enter? && Legal(c, e) && Advance(cfg, c, e) == Some(c') && Steady(c, e, c', i, a)
    ensures NextNumber(c', p, a, next)
  {
    assert Plus(next, 1) != next;
    StepNonce(cfg, c.s, e, c'.s, a);
    if e.typ == CALL {
      assert e.from == a;
    }
  }

  lemma EnterElsewhere(cfg: Config, c: Snap, e: Event, c': Snap, i: nat, p: nat, a: Address, next: U64)
    requires Accounted(c.j) && Broadcasting(c, i, p, a) && NextNumber(c, p, a, next)
    requires |c.j.live| == |c.s.stack| && i + 1 < |c.s.stack|
    requires e.Enter? && Legal(c, e) && Advance(cfg, c, e) == Some(c') && Steady(c, e, c', i, a)
    ensures NextNumber(c', p, a, next)
  {
    LiveDistinct(c.j, i, |c.j.live| - 1);
    StepNonce(cfg, c.s, e, c'.s, a);
  }

  lemma SettleNumber(cfg: Config, c: Snap, e: Event, c': Snap, i: nat, p: nat, a: Address, next: U64)
    requires Bracketed(c.s, c.j) && NextNumber(c, p, a, next) && (e.Opcode? || e.Exit?)
    requires Legal(c, e) && Advance(cfg, c, e) == Some(c') && Steady(c, e, c', i, a)
    ensures NextNumber(c', p, a, Plus(next, |Settled(c.j, e, p)|))
  {
    UncountedStep(cfg, c, e, c', i, a);
    SettlesCall(cfg, c, e, c');
    NumberSettled(c, e, c', p, a, next);
  }

  lemma UncountedStep(cfg: Config, c: Snap, e: Event, c': Snap, i: nat, a: Address)
    requires !e.Enter? && Advance(cfg, c, e) == Some(c') && Steady(c, e, c', i, a)
    ensures NonceOf(c'.s.nonces, a) == NonceOf(c.s.nonces, a)
  {
    StepNonce(cfg, c.s, e, c'.s, a);
  }

  lemma NumberSettled(c: Snap, e: Event, c': Snap, p: nat, a: Address, next: U64)
    requires NextNumber(c, p, a, next) && (e.Opcode? || e.Exit?) && !Opening(c'.j)
    requires NonceOf(c'.s.nonces, a) == NonceOf(c.s.nonces, a)
    ensures NextNumber(c', p, a, Plus(next, |Settled(c.j, e, p)|))
  {
  }

  /** After an opcode, and after leaving a call, no call is being made. */
  lemma SettlesCall(cfg: Config, c: Snap, e: Event, c': Snap)
    requires Bracketed(c.s, c.j) && (e.Opcode? || e.Exit?) && Legal(c, e) && Advance(cfg, c, e) == Some(c')
    ensures !Opening(c'.j)
  {
    if e.Opcode? {
      OpcodeBracketed(cfg, c, e, c');
    } else {
      ExitBracketed(cfg, c, e, c');
    }
  }

  lemma QuietNumber(cfg: Config, c: Snap, e: Event, c': Snap, i: nat, p: nat, a: Address, next: U64)
    requires NextNumber(c, p, a, next) && !e.Opcode? && !e.Exit? && !e.Enter?
    requires Advance(cfg, c, e) == Some(c') && Steady(c, e, c', i, a)
    ensures NextNumber(c', p, a, Plus(next, |Settled(c.j, e, p)|))
  {
    UncountedStep(cfg, c, e, c', i, a);
  }

  lemma EnterNumber(cfg: Config, c: Snap, e: Event, c': Snap, i: nat, p: nat, a: Address, next: U64)
    requires Accounted(c.j) && Bracketed(c.s, c.j) && Calling(cfg, c.s, c.j)
    requires Broadcasting(c, i, p, a) && NextNumber(c, p, a, next)
    requires e.Enter? && Legal(c, e) && Advance(cfg, c, e) == Some(c') && Steady(c, e, c', i, a)
    ensures NextNumber(c', p, a, Plus(next, |Settled(c.j, e, p)|))
  {
    if i + 1 == |c.s.stack| {
      EnterTakesNumber(cfg, c, e, c', i, p, a, next);
    } else {
      EnterElsewhere(cfg, c, e, c', i, p, a, next);
    }
  }

  lemma StepNumber(cfg: Config, c: Snap, e: Event, c': Snap, i: nat, p: nat, a: Address, next: U64)
    requires Accounted(c.j) && Bracketed(c.s, c.j) && Calling(cfg, c.s, c.j)
    requires Broadcasting(c, i, p, a) && NextNumber(c, p, a, next)
    requires Legal(c, e) && Advance(cfg, c, e) == Some(c') && Steady(c, e, c', i, a)
    ensures NextNumber(c', p, a, Plus(next, |Settled(c.j, e, p)|))
  {
    if e.Enter? {
      EnterNumber(cfg, c, e, c', i, p, a, next);
    } else if e.Opcode? || e.Exit? {
      SettleNumber(cfg, c, e, c', i, p, a, next);
    } else {
      QuietNumber(cfg, c, e, c', i, p, a, next);
    }
  }

  ghost predicate Consecutive(items: seq<Item>, next: U64) {
    forall t :: 0 <= t < |items| ==> items[t].nonce == Plus(next, t)
  }

  lemma ConsecutiveJoin(first: seq<Item>, rest: seq<Item>, next: U64)
    requires |first| <= 1 && (first != [] ==> first[0].nonce == next)
    requires Consecutive(rest, Plus(next, |first|))
    ensures Consecutive(first + rest, next)
    ensures Plus(Plus(next, |first|), |rest|) == Plus(next, |first + rest|)
  {
    PlusAssoc(next, |first|, |rest|);
    forall t | |first| <= t < |first + rest| ensures rest[t - |first|].nonce == Plus(next, t) {
      PlusAssoc(next, |first|, t - |first|);
    }
  }

  /** The CALLs of a broadcasting frame are numbered consecutively, reported or not. */
  lemma {:induction false} CallsNumbered(cfg: Config, c: Snap, es: seq<Event>, c': Snap,
                                         i: nat, p: nat, a: Address, next: U64)
    requires Sound(cfg, c) && Broadcasting(c, i, p, a) && NextNumber(c, p, a, next)
    requires Session(cfg, c, es, i, a) && Exec(cfg, c, es) == Some(c')
    ensures Consecutive(Items(cfg, c, es, p), next)
    ensures NextNumber(c', p, a, Plus(next, |Items(cfg, c, es, p)|))
    decreases |es|
  {
    if es != [] {
      var c1 := Advance(cfg, c, es[0]).value;
      var first := Settled(c.j, es[0], p);
      StepSound(cfg, c, es[0], c1);
      StepBroadcasting(cfg, c, es[0], c1, i, p, a);
      StepNumber(cfg, c, es[0], c1, i, p, a, next);
      CallsNumbered(cfg, c1, es[1..], c', i, p, a, Plus(next, |first|));
      ConsecutiveJoin(first, Items(cfg, c1, es[1..], p), next);
    }
  }

  // ----- the frames they open -----

  /** A frame that frame `p` opened by CALL and that is to be reported. */
  predicate ReportedCall(b: Birth, p: nat) {
    b.parent == Some(p) && b.op == CALL && Reportable(b)
  }

  /** The numbers that those CALLs took, for the frames listed. */
  function CallNonces(births: seq<Birth>, ids: seq<nat>, p: nat): seq<U64> {
    if ids == [] then []
    else
      var last := ids[|ids| - 1];
      CallNonces(births, ids[..|ids| - 1], p) +
      if last < |births| && ReportedCall(births[last], p) then [births[last].preNonce] else []
  }

  function ReportedNonces(items: seq<Item>): seq<U64> {
    if items == [] then []
    else (if items[0].reported then [items[0].nonce] else []) + ReportedNonces(items[1..])
  }

  /** The frame that a call opens is a reported CALL of frame `p` just if frame `p` is making a CALL. */
  lemma BirthSettles(cfg: Config, c: Snap, b: Birth, i: nat, p: nat, a: Address)
    requires Accounted(c.j) && Bracketed(c.s, c.j) && Calling(cfg, c.s, c.j) && Broadcasting(c, i, p, a)
    requires Opening(c.j) && LastBracket(c.j).to != VM_ADDR && LastBracket(c.j).to != CONSOLE_ADDR
    requires b.parent == LastLive(c.j) && b.op == Top(c.s).lastOp && b.prank == Top(c.s).prank
    ensures ReportedCall(b, p) <==> InCall(c.j, p)
  {
    CallerIsTop(c, i);
    assert Entered(c.s, LastBracket(c.j));
  }

  /** A frame that appears was opened by a CALL of frame `p` just when that CALL is settled by it. */
  lemma OpcodeSettles(cfg: Config, c: Snap, e: Event, c': Snap, i: nat, p: nat, a: Address)
    requires Accounted(c.j) && Bracketed(c.s, c.j) && Calling(cfg, c.s, c.j) && Broadcasting(c, i, p, a)
    requires e.Opcode? && Opening(c.j) && Legal(c, e) && Advance(cfg, c, e) == Some(c')
    ensures c.j.births <= c'.j.births
    ensures CallNonces(c'.j.births, Ids(|c.j.births|, |c'.j.births|), p) == ReportedNonces(Settled(c.j, e, p))
  {
    var b := OpenedBirth(cfg, c, e, c');
    BirthSettles(cfg, c, b, i, p, a);
    OneNonce(c.j.births, b, p);
  }

  lemma OneNonce(births: seq<Birth>, b: Birth, p: nat)
    ensures CallNonces(births + [b], Ids(|births|, |births + [b]|), p) ==
            if ReportedCall(b, p) then [b.preNonce] else []
  {
    assert Ids(|births|, |births + [b]|) == [|births|];
  }

  lemma StepSettles(cfg: Config, c: Snap, e: Event, c': Snap, i: nat, p: nat, a: Address)
    requires Accounted(c.j) && Bracketed(c.s, c.j) && Calling(cfg, c.s, c.j) && Broadcasting(c, i, p, a)
    requires Legal(c, e) && Advance(cfg, c, e) == Some(c')
    ensures c.j.births <= c'.j.births
    ensures CallNonces(c'.j.births, Ids(|c.j.births|, |c'.j.births|), p) == ReportedNonces(Settled(c.j, e, p))
  {
    if e.Opcode? && Opening(c.j) {
      OpcodeSettles(cfg, c, e, c', i, p, a);
    } else {
      if e.Opcode? {
        LegalOpcode(cfg, c, e, c');
      } else if e.Exit? {
        LegalExit(cfg, c, e, c');
      }
      assert c'.j.births == c.j.births;
    }
  }

  lemma {:induction false} CallNoncesJoin(births: seq<Birth>, x: seq<nat>, y: seq<nat>, p: nat)
    ensures CallNonces(births, x + y, p) == CallNonces(births, x, p) + CallNonces(births, y, p)
  {
    if y == [] {
      assert x + y == x;
    } else {
      assert (x + y)[..|x + y| - 1] == x + y[..|y| - 1];
      CallNoncesJoin(births, x, y[..|y| - 1], p);
    }
  }

  lemma {:induction false} CallNoncesGrow(births: seq<Birth>, more: seq<Birth>, ids: seq<nat>, p: nat)
    requires births <= more && forall k :: 0 <= k < |ids| ==> ids[k] < |births|
    ensures CallNonces(more, ids, p) == CallNonces(births, ids, p)
  {
    if ids != [] {
      CallNoncesGrow(births, more, ids[..|ids| - 1], p);
    }
  }

  lemma ReportedNoncesJoin(first: seq<Item>, rest: seq<Item>)
    requires |first| <= 1
    ensures ReportedNonces(first + rest) == ReportedNonces(first) + ReportedNonces(rest)
  {
    if first == [] {
      assert first + rest == rest;
    } else {
      assert (first + rest)[1..] == rest;
    }
  }

  lemma CallNoncesExtend(births: seq<Birth>, more: seq<Birth>, x: seq<nat>, y: seq<nat>, p: nat)
    requires births <= more && forall k :: 0 <= k < |x| ==> x[k] < |births|
    ensures CallNonces(more, x + y, p) == CallNonces(births, x, p) + CallNonces(more, y, p)
  {
    CallNoncesJoin(more, x, y, p);
    CallNoncesGrow(births, more, x, p);
  }

  lemma ItemsJoin(b0: seq<Birth>, b1: seq<Birth>, b2: seq<Birth>, p: nat, first: seq<Item>, rest: seq<Item>)
    requires b0 <= b1 <= b2 && |first| <= 1
    requires CallNonces(b1, Ids(|b0|, |b1|), p) == ReportedNonces(first)
    requires CallNonces(b2, Ids(|b1|, |b2|), p) == ReportedNonces(rest)
    ensures b0 <= b2
    ensures CallNonces(b2, Ids(|b0|, |b2|), p) == ReportedNonces(first + rest)
  {
    IdsJoin(|b0|, |b1|, |b2|);
    CallNoncesExtend(b1, b2, Ids(|b0|, |b1|), Ids(|b1|, |b2|), p);
    ReportedNoncesJoin(first, rest);
  }

  /** The frames that a session opens by CALL carry the numbers of the CALLs that opened one, in order. */
  lemma {:induction false} FramesAreItems(cfg: Config, c: Snap, es: seq<Event>, c': Snap, i: nat, p: nat, a: Address)
    requires Sound(cfg, c) && Broadcasting(c, i, p, a) && Session(cfg, c, es, i, a) && Exec(cfg, c, es) == Some(c')
    ensures Sound(cfg, c') && c.j.births <= c'.j.births && Broadcasting(c', i, p, a)
    ensures CallNonces(c'.j.births, Ids(|c.j.births|, |c'.j.births|), p) == ReportedNonces(Items(cfg, c, es, p))
    decreases |es|
  {
    if es != [] {
      var c1 := Advance(cfg, c, es[0]).value;
      StepSound(cfg, c, es[0], c1);
      StepBroadcasting(cfg, c, es[0], c1, i, p, a);
      StepSettles(cfg, c, es[0], c1, i, p, a);
      FramesAreItems(cfg, c1, es[1..], c', i, p, a);
      ItemsJoin(c.j.births, c1.j.births, c'.j.births, p, Settled(c.j, es[0], p), Items(cfg, c1, es[1..], p));
    }
  }

  // ----- the reports about them -----

  /** The numbers in the broadcasts `bs`, about the frames `ids`, that report a CALL of frame `p`. */
  function CallReports(births: seq<Birth>, ids: seq<nat>, bs: seq<Broadcast>, p: nat): seq<U64>
    requires |ids| == |bs|
  {
    if ids == [] then []
    else
      var n := |ids| - 1;
      CallReports(births, ids[..n], bs[..n], p) +
      if ids[n] < |births| && ReportedCall(births[ids[n]], p) then [bs[n].nonce] else []
  }

  /** The nonce of a broadcast is the one recorded for the CALL. */
  predicate NumberedAs(births: seq<Birth>, id: nat, bc: Broadcast) {
    id < |births| && (births[id].op == CALL ==> bc.nonce == births[id].preNonce)
  }

  lemma {:induction false} ReportsNumbered(births: seq<Birth>, ids: seq<nat>, bs: seq<Broadcast>, p: nat)
    requires |ids| == |bs| && forall k :: 0 <= k < |ids| ==> NumberedAs(births, ids[k], bs[k])
    ensures CallReports(births, ids, bs, p) == CallNonces(births, ids, p)
  {
    if ids != [] {
      var n := |ids| - 1;
      assert NumberedAs(births, ids[n], bs[n]);
      forall k | 0 <= k < n ensures NumberedAs(births, ids[..n][k], bs[..n][k]) {
        assert NumberedAs(births, ids[k], bs[k]);
      }
      ReportsNumbered(births, ids[..n], bs[..n], p);
    }
  }

  lemma {:induction false} CallNoncesReported(births: seq<Birth>, closed: seq<nat>, p: nat)
    ensures CallNonces(births, ReportedIds(births, closed), p) == CallNonces(births, closed, p)
  {
    if closed != [] {
      var init, last := closed[..|closed| - 1], closed[|closed| - 1];
      CallNoncesReported(births, init, p);
      var tail := if last < |births| && Reportable(births[last]) then [last] else [];
      CallNoncesJoin(births, ReportedIds(births, init), tail, p);
    }
  }

  lemma {:induction false} CallNoncesOfChildren(births: seq<Birth>, ids: seq<nat>, p: nat)
    ensures CallNonces(births, Children(births, ids, p), p) == CallNonces(births, ids, p)
  {
    if ids != [] {
      var init, last := ids[..|ids| - 1], ids[|ids| - 1];
      CallNoncesOfChildren(births, init, p);
      CallNoncesJoin(births, Children(births, init, p), if ChildOf(births, last, p) then [last] else [], p);
    }
  }

  lemma {:induction false} ReportedIdsJoin(births: seq<Birth>, x: seq<nat>, y: seq<nat>)
    ensures ReportedIds(births, x + y) == ReportedIds(births, x) + ReportedIds(births, y)
  {
    if y == [] {
      assert x + y == x;
    } else {
      assert (x + y)[..|x + y| - 1] == x + y[..|y| - 1];
      ReportedIdsJoin(births, x, y[..|y| - 1]);
    }
  }

  lemma {:induction false} ReportedIdsKept(births: seq<Birth>, more: seq<Birth>, closed: seq<nat>)
    requires births <= more && forall k :: 0 <= k < |closed| ==> closed[k] < |births|
    ensures ReportedIds(more, closed) == ReportedIds(births, closed)
  {
    if closed != [] {
      ReportedIdsKept(births, more, closed[..|closed| - 1]);
    }
  }

  lemma {:induction false} CloseExtends(j: Journal, depth: int)
    ensures j.closed <= Close(j, depth).closed
    decreases |j.live|
  {
    if !(LiveDepth(j).None? || LiveDepth(j).value <= depth) {
      CloseExtends(CloseTop(j), depth);
    }
  }

  lemma StepExtends(cfg: Config, c: Snap, e: Event, c': Snap)
    requires Advance(cfg, c, e) == Some(c')
    ensures c.j.closed <= c'.j.closed
  {
    if e.Opcode? {
      CloseExtends(c.j, e.depth);
    } else if e.Exit? {
      CloseExtends(Charge(c.j, e.gasUsed), e.depth);
    }
  }

  lemma {:induction false} ExecExtends(cfg: Config, c: Snap, es: seq<Event>, c': Snap)
    requires Exec(cfg, c, es) == Some(c')
    ensures c.j.closed <= c'.j.closed
    decreases |es|
  {
    if es != [] {
      var c1 := Advance(cfg, c, es[0]).value;
      StepExtends(cfg, c, es[0], c1);
      ExecExtends(cfg, c1, es[1..], c');
    }
  }

  lemma OrderedNonces(j: Journal, p: nat)
    requires InOrder(j, p)
    ensures CallNonces(j.births, j.closed, p) + CallNonces(j.births, j.live, p) ==
            CallNonces(j.births, Ids(0, |j.births|), p)
  {
    CallNoncesJoin(j.births, j.closed, j.live, p);
    CallNoncesOfChildren(j.births, j.closed + j.live, p);
    CallNoncesOfChildren(j.births, Ids(0, |j.births|), p);
  }

  lemma Cancel(x: seq<U64>, y: seq<U64>, y': seq<U64>, z: seq<U64>, z': seq<U64>)
    requires (x + y) + y' == (x + z) + z'
    ensures y + y' == z + z'
  {
    assert ((x + y) + y')[|x|..] == y + y' && ((x + z) + z')[|x|..] == z + z';
  }

  /** What is closed between `j` and `j'`, and what is live then, is what was live and what was opened. */
  lemma CallsConserved(j: Journal, j': Journal, p: nat)
    requires InOrder(j, p) && InOrder(j', p) && j.births <= j'.births && j.closed <= j'.closed && Accounted(j)
    requires forall k :: 0 <= k < |j.live| ==> j.live[k] < |j.births|
    ensures CallNonces(j'.births, j'.closed[|j.closed|..], p) + CallNonces(j'.births, j'.live, p) ==
            CallNonces(j.births, j.live, p) + CallNonces(j'.births, Ids(|j.births|, |j'.births|), p)
  {
    var all, added := j'.births, j'.closed[|j.closed|..];
    ClosedKnown(j);
    OrderedNonces(j, p);
    OrderedNonces(j', p);
    CallNoncesGrow(j.births, all, j.closed, p);
    CallNoncesGrow(j.births, all, Ids(0, |j.births|), p);
    assert j'.closed == j.closed + added;
    CallNoncesJoin(all, j.closed, added, p);
    IdsJoin(0, |j.births|, |all|);
    CallNoncesJoin(all, Ids(0, |j.births|), Ids(|j.births|, |all|), p);
    Cancel(CallNonces(all, j.closed, p), CallNonces(all, added, p), CallNonces(all, j'.live, p),
           CallNonces(j.births, j.live, p), CallNonces(all, Ids(|j.births|, |all|), p));
  }

  /** The numbers of the broadcasts made between `c` and `c'` that report CALLs of frame `p`. */
  function NewCallReports(c: Snap, c': Snap, p: nat): seq<U64>
    requires |c.s.broadcasts| <= |c'.s.broadcasts| == |ReportedIds(c'.j.births, c'.j.closed)|
  {
    var m := |c.s.broadcasts|;
    CallReports(c'.j.births, ReportedIds(c'.j.births, c'.j.closed)[m..], c'.s.broadcasts[m..], p)
  }

  lemma AllNumbered(cfg: Config, s: State, j: Journal)
    requires Reported(cfg, s, j) && Counted(j.births)
    ensures var ids := ReportedIds(j.births, j.closed);
            forall k :: 0 <= k < |ids| ==> NumberedAs(j.births, ids[k], s.broadcasts[k])
  {
    var ids := ReportedIds(j.births, j.closed);
    forall k | 0 <= k < |ids| ensures NumberedAs(j.births, ids[k], s.broadcasts[k]) {
      assert Describes(cfg, s.broadcasts[k], j.births[ids[k]]);
    }
  }

  /** The broadcasts made between `c` and `c'` are about the frames closed between them. */
  lemma NewReports(cfg: Config, c: Snap, c': Snap, p: nat)
    requires Sound(cfg, c) && Sound(cfg, c') && c.j.births <= c'.j.births && c.j.closed <= c'.j.closed
    ensures |c.s.broadcasts| <= |c'.s.broadcasts| == |ReportedIds(c'.j.births, c'.j.closed)|
    ensures NewCallReports(c, c', p) == CallNonces(c'.j.births, c'.j.closed[|c.j.closed|..], p)
  {
    var m, added := |c.s.broadcasts|, c'.j.closed[|c.j.closed|..];
    var ids := ReportedIds(c'.j.births, c'.j.closed);
    assert c'.j.closed == c.j.closed + added;
    ReportedIdsJoin(c'.j.births, c.j.closed, added);
    ClosedKnown(c.j);
    ReportedIdsKept(c.j.births, c'.j.births, c.j.closed);
    assert ids[m..] == ReportedIds(c'.j.births, added);
    AllNumbered(cfg, c'.s, c'.j);
    ReportsNumbered(c'.j.births, ids[m..], c'.s.broadcasts[m..], p);
    CallNoncesReported(c'.j.births, added, p);
  }

  lemma OnTopNoneLive(s: State, j: Journal, i: nat, p: nat)
    requires Aligned(s, j) && Accounted(j) && i + 1 == |j.live| && j.live[i] == p
    ensures CallNonces(j.births, j.live, p) == []
  {
    LiveNoChildren(s, j, i);
    assert j.live[..i + 1] == j.live;
    CallNoncesOfChildren(j.births, j.live, p);
  }

  /**
   The reports follow the calls. In a session of a broadcasting frame, the numbers in the broadcasts about its
   CALLs, and then that of a CALL still running, are that of a CALL already running and then those of the CALLs
   of the session that open a frame, in order.
   */
  lemma ReportsFollowCalls(cfg: Config, c: Snap, es: seq<Event>, c': Snap, i: nat, p: nat, a: Address)
    requires Sound(cfg, c) && InOrder(c.j, p) && Broadcasting(c, i, p, a)
    requires Session(cfg, c, es, i, a) && Exec(cfg, c, es) == Some(c')
    ensures |c.s.broadcasts| <= |c'.s.broadcasts| == |ReportedIds(c'.j.births, c'.j.closed)|
    ensures NewCallReports(c, c', p) + CallNonces(c'.j.births, c'.j.live, p) ==
            CallNonces(c.j.births, c.j.live, p) + ReportedNonces(Items(cfg, c, es, p))
    ensures i + 1 == |c.s.stack| ==> CallNonces(c.j.births, c.j.live, p) == []
    ensures i + 1 == |c'.s.stack| ==> CallNonces(c'.j.births, c'.j.live, p) == []
  {
    FramesAreItems(cfg, c, es, c', i, p, a);
    ExecExtends(cfg, c, es, c');
    ExecInOrder(cfg, c, es, c', p);
    CallsConserved(c.j, c'.j, p);
    NewReports(cfg, c, c', p);
    if i + 1 == |c.s.stack| { OnTopNoneLive(c.s, c.j, i, p); }
    if i + 1 == |c'.s.stack| { OnTopNoneLive(c'.s, c'.j, i, p); }
  }

  lemma {:induction false} ReportedIff(items: seq<Item>, t: nat, n: U64)
    requires t < |items| && items[t].nonce == n
    requires forall u :: 0 <= u < |items| && u != t ==> items[u].nonce != n
    ensures n in ReportedNonces(items) <==> items[t].reported
  {
    if t == 0 {
      Unreported(items[1..], n);
    } else {
      ReportedIff(items[1..], t - 1, n);
    }
  }

  lemma {:induction false} Unreported(items: seq<Item>, n: U64)
    requires forall u :: 0 <= u < |items| ==> items[u].nonce != n
    ensures n !in ReportedNonces(items)
  {
    if items != [] {
      Unreported(items[1..], n);
    }
  }

  lemma PlusInjective(next: U64, t: nat, u: nat)
    requires t < TWO_64 && u < TWO_64 && Plus(next, t) == Plus(next, u)
    ensures t == u
  {
  }

  lemma GaplessIff(items: seq<Item>, next: U64)
    requires Consecutive(items, next) && |items| <= TWO_64
    ensures (forall t :: 0 <= t < |items| ==> Plus(next, t) in ReportedNonces(items)) <==>
            (forall t :: 0 <= t < |items| ==> items[t].reported)
  {
    forall t | 0 <= t < |items| ensures Plus(next, t) in ReportedNonces(items) <==> items[t].reported {
      forall u | 0 <= u < |items| && u != t ensures items[u].nonce != Plus(next, t) {
        if Plus(next, u) == Plus(next, t) { PlusInjective(next, u, t); }
      }
      ReportedIff(items, t, Plus(next, t));
    }
  }

  /**
   Consecutive numbering. After any legal run of a fresh host take a frame that runs and broadcasts repeatedly
   as `a`, and any session of it, until it runs again, in which nothing else changes the nonce of `a`. Its CALLs
   take the numbers from the nonce of `a` on, one each; the broadcasts about them carry the numbers of those
   that open a frame, in order; and no number is left out exactly when every CALL of the session opens a frame
   (as long as 64 bits tell the numbers apart).
   */
  lemma ConsecutiveNumbering(cfg: Config, s: State, es0: seq<Event>, c: Snap, es: seq<Event>, c': Snap,
                             i: nat, p: nat, a: Address)
    requires Fresh(s) && Leads(cfg, Snap(s, EMPTY_JOURNAL), es0, c)
    requires Broadcasting(c, i, p, a) && i + 1 == |c.s.stack| && !InCall(c.j, p)
    requires Session(cfg, c, es, i, a) && Exec(cfg, c, es) == Some(c') && i + 1 == |c'.s.stack|
    ensures |c.s.broadcasts| <= |c'.s.broadcasts| == |ReportedIds(c'.j.births, c'.j.closed)|
    ensures var items, next, reports := Items(cfg, c, es, p), NonceOf(c.s.nonces, a), NewCallReports(c, c', p);
            && Consecutive(items, next)
            && reports == ReportedNonces(items)
            && (|items| <= TWO_64 ==>
                  ((forall t :: 0 <= t < |items| ==> Plus(next, t) in reports) <==>
                   (forall t :: 0 <= t < |items| ==> items[t].reported)))
  {
    var items, next := Items(cfg, c, es, p), NonceOf(c.s.nonces, a);
    FreshSound(cfg, s);
    ExecSound(cfg, Snap(s, EMPTY_JOURNAL), es0, c);
    ExecInOrder(cfg, Snap(s, EMPTY_JOURNAL), es0, c, p);
    CallsNumbered(cfg, c, es, c', i, p, a, next);
    ReportsFollowCalls(cfg, c, es, c', i, p, a);
    assert NewCallReports(c, c', p) + [] == NewCallReports(c, c', p);
    assert [] + ReportedNonces(items) == ReportedNonces(items);
    if |items| <= TWO_64 { GaplessIff(items, next); }
  }
}
