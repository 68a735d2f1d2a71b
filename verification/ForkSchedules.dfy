/** When network upgrades activate: offsets from genesis, the check of their order, and what follows from it. */
module ForkSchedules {
  import opened Basics

  datatype ForkName = Regolith | Canyon | Delta | Ecotone | Fjord | Granite | Holocene | Isthmus | Jovian | Interop

  /** All forks that can be scheduled, in the order they build on each other. */
  const SCHEDULEABLE: seq<ForkName> :=
    [Regolith, Canyon, Delta, Ecotone, Fjord, Granite, Holocene, Isthmus, Jovian, Interop]

  /** The position of Delta, the oldest fork that allocations are made for. */
  const DELTA: nat := Index(Delta)

  type Offset = Option<U64>

  // ----- order -----

  datatype CheckResult = Accepted | PriorMissing(fork: nat) | PriorLater(fork: nat)

  /** What is wrong with two neighbouring forks, if anything. */
  function CheckPair(a: Offset, b: Offset, fork: nat): CheckResult {
    if a.None? && b.Some? then PriorMissing(fork)
    else if a.Some? && b.Some? && a.value > b.value then PriorLater(fork)
    else Accepted
  }

  /** The forks that are set form a prefix, and of any two the earlier one does not activate later. */
  ghost predicate Ordered(os: seq<Offset>) {
    forall i, k :: 0 <= i < k < |os| && os[k].Some? ==> os[i].Some? && os[i].value <= os[k].value
  }

  ghost predicate NeighboursOrdered(os: seq<Offset>) {
    forall k :: 0 <= k < |os| - 1 ==> CheckPair(os[k], os[k + 1], k + 1).Accepted?
  }

  lemma {:induction false} OrderedAcross(os: seq<Offset>, i: nat, k: nat)
    requires NeighboursOrdered(os) && i < k < |os| && os[k].Some?
    ensures os[i].Some? && os[i].value <= os[k].value
    decreases k - i
  {
    assert CheckPair(os[k - 1], os[k - 1 + 1], k).Accepted?;
    if i < k - 1 {
      OrderedAcross(os, i, k - 1);
    }
  }

  /** Neighbours in order means all pairs in order. */
  lemma OrderedIffNeighbours(os: seq<Offset>)
    ensures NeighboursOrdered(os) <==> Ordered(os)
  {
    if NeighboursOrdered(os) {
      forall i, k | 0 <= i < k < |os| && os[k].Some? ensures os[i].Some? && os[i].value <= os[k].value {
        OrderedAcross(os, i, k);
      }
    }
    if Ordered(os) {
      forall k | 0 <= k < |os| - 1 ensures CheckPair(os[k], os[k + 1], k + 1).Accepted? {
        assert os[k + 1].Some? ==> os[k].Some? && os[k].value <= os[k + 1].value;
      }
    }
  }

  // ----- upgrade times -----

  /** Zero means at genesis; the sum wraps around. */
  function OffsetToUpgradeTime(offset: Offset, genesisTime: U64): Option<U64> {
    if offset.None? then None
    else if offset.value > 0 then Some(Plus(genesisTime, offset.value))
    else Some(0)
  }

  /** One of two offsets stays below 2^64 from genesis, the other one does not. */
  predicate Straddles(a: U64, b: U64, genesisTime: U64) {
    0 < a && genesisTime + a < TWO_64 <= genesisTime + b
  }

  /** Upgrade times keep the order of the offsets exactly unless the later one alone wraps around. */
  lemma TimeOrder(a: U64, b: U64, genesisTime: U64)
    requires a <= b
    ensures OffsetToUpgradeTime(Some(a), genesisTime).value <= OffsetToUpgradeTime(Some(b), genesisTime).value <==>
            !Straddles(a, b, genesisTime)
  {
  }

  ghost predicate TimesOrdered(os: seq<Offset>, genesisTime: U64) {
    forall i, k :: 0 <= i < k < |os| && os[i].Some? && os[k].Some? ==>
      OffsetToUpgradeTime(os[i], genesisTime).value <= OffsetToUpgradeTime(os[k], genesisTime).value
  }

  /** An accepted schedule gives ordered upgrade times at a genesis time exactly if no two offsets straddle 2^64. */
  lemma UpgradeTimesOrdered(os: seq<Offset>, genesisTime: U64)
    requires Ordered(os)
    ensures TimesOrdered(os, genesisTime) <==>
            forall i, k :: 0 <= i < k < |os| && os[i].Some? && os[k].Some? ==>
              !Straddles(os[i].value, os[k].value, genesisTime)
  {
    forall i, k | 0 <= i < k < |os| && os[i].Some? && os[k].Some?
      ensures OffsetToUpgradeTime(os[i], genesisTime).value <= OffsetToUpgradeTime(os[k], genesisTime).value <==>
              !Straddles(os[i].value, os[k].value, genesisTime)
    {
      TimeOrder(os[i].value, os[k].value, genesisTime);
    }
  }

  predicate ActiveAtGenesis(offset: Offset, genesisTime: U64) {
    OffsetToUpgradeTime(offset, genesisTime) == Some(0)
  }

  /** A fork is active at genesis if its offset is zero, or if genesis plus the offset is exactly 2^64. */
  lemma ActiveIff(offset: Offset, genesisTime: U64)
    ensures ActiveAtGenesis(offset, genesisTime) <==>
            offset.Some? && (offset.value == 0 || genesisTime + offset.value == TWO_64)
  {
  }

  // ----- the schedule -----

  function Index(f: ForkName): (i: nat)
    ensures i < |SCHEDULEABLE| && SCHEDULEABLE[i] == f
  {
    match f
    case Regolith => 0 case Canyon => 1 case Delta => 2 case Ecotone => 3 case Fjord => 4
    case Granite => 5 case Holocene => 6 case Isthmus => 7 case Jovian => 8 case Interop => 9
  }

  /** The schedule that activates fork `i` at `offset`, all earlier ones at genesis and no later one. */
  function ActivatedAt(i: nat, offset: U64): seq<Offset> {
    seq(|SCHEDULEABLE|, k => if k < i then Some(0) else if k == i then Some(offset) else None)
  }

  class UpgradeSchedule {
    var regolith: Offset
    var canyon: Offset
    var delta: Offset
    var ecotone: Offset
    var fjord: Offset
    var granite: Offset
    var holocene: Offset
    var isthmus: Offset
    var jovian: Offset
    var interop: Offset

    /** All offsets, in fork order. */
    function Offsets(): (r: seq<Offset>)
      reads this
      ensures |r| == |SCHEDULEABLE|
    {
      [regolith, canyon, delta, ecotone, fjord, granite, holocene, isthmus, jovian, interop]
    }

    function ForkTimeOffset(fork: ForkName): (r: Offset)
      reads this
      ensures r == Offsets()[Index(fork)]
    {
      match fork
      case Regolith => regolith
      case Canyon => canyon
      case Delta => delta
      case Ecotone => ecotone
      case Fjord => fjord
      case Granite => granite
      case Holocene => holocene
      case Isthmus => isthmus
      case Jovian => jovian
      case Interop => interop
    }

    method SetForkTimeOffset(fork: ForkName, offset: Offset)
      modifies this
      ensures Offsets() == old(Offsets())[Index(fork) := offset]
      ensures forall f :: f != fork ==> ForkTimeOffset(f) == old(ForkTimeOffset(f))
      ensures ForkTimeOffset(fork) == offset
    {
      match fork
      case Regolith => regolith := offset;
      case Canyon => canyon := offset;
      case Delta => delta := offset;
      case Ecotone => ecotone := offset;
      case Fjord => fjord := offset;
      case Granite => granite := offset;
      case Holocene => holocene := offset;
      case Isthmus => isthmus := offset;
      case Jovian => jovian := offset;
      case Interop => interop := offset;
    }

    method ActivateForkAtOffset(fork: ForkName, offset: U64)
      modifies this
      ensures Offsets() == ActivatedAt(Index(fork), offset)
      ensures forall f :: Index(f) < Index(fork) ==> ForkTimeOffset(f) == Some(0)
      ensures forall f :: Index(f) > Index(fork) ==> ForkTimeOffset(f) == None
      ensures ForkTimeOffset(fork) == Some(offset)
    {
      var ts: Offset := Some(0);
      for i := 0 to |SCHEDULEABLE|
        invariant ts == if i <= Index(fork) then Some(0) else None
        invariant forall k :: 0 <= k < i ==> Offsets()[k] == ActivatedAt(Index(fork), offset)[k]
      {
        var f := SCHEDULEABLE[i];
        assert Index(f) == i;
        if f == fork {
          SetForkTimeOffset(fork, Some(offset));
          ts := None;
        } else {
          SetForkTimeOffset(f, ts);
        }
      }
    }

    /** The forks that are checked and that allocations are made for: all but Interop. */
    function Forks(): (r: seq<Offset>)
      reads this
      ensures r == Offsets()[..9]
    {
      [regolith, canyon, delta, ecotone, fjord, granite, holocene, isthmus, jovian]
    }

    method Check() returns (r: CheckResult)
      ensures r.Accepted? <==> Ordered(Forks())
      ensures !r.Accepted? ==> 0 < r.fork < |Forks()| && Ordered(Forks()[..r.fork]) && Forks()[r.fork].Some?
      ensures r.PriorMissing? ==> Forks()[r.fork - 1].None?
      ensures r.PriorLater? ==> Forks()[r.fork - 1].Some? && Forks()[r.fork - 1].value > Forks()[r.fork].value
    {
      var forks := Forks();
      for i := 0 to |forks| - 1
        invariant forall k :: 0 <= k < i ==> CheckPair(forks[k], forks[k + 1], k + 1).Accepted?
      {
        r := CheckPair(forks[i], forks[i + 1], i + 1);
        if !r.Accepted? {
          OrderedIffNeighbours(forks);
          OrderedIffNeighbours(forks[..i + 1]);
          return;
        }
      }
      OrderedIffNeighbours(forks);
      return Accepted;
    }

    /** The last listed fork that is active at genesis, but Delta at least. */
    method AllocMode(genesisTime: U64) returns (mode: nat)
      ensures Index(Delta) <= mode < |Forks()|
      ensures mode > Index(Delta) ==> ActiveAtGenesis(Forks()[mode], genesisTime)
      ensures forall k :: mode < k < |Forks()| ==> !ActiveAtGenesis(Forks()[k], genesisTime)
    {
      var forks := Forks();
      // At Delta the search ends with Delta, active or not.
      for i := |forks| downto DELTA + 1
        invariant forall k :: i <= k < |forks| ==> !ActiveAtGenesis(forks[k], genesisTime)
      {
        if ActiveAtGenesis(forks[i], genesisTime) {
          return i;
        }
      }
      return DELTA;
    }
  }

  /** Activating any fork at any offset gives a schedule that the check accepts. */
  lemma ActivatedOrdered(fork: ForkName, offset: U64)
    ensures Ordered(ActivatedAt(Index(fork), offset)) && Ordered(ActivatedAt(Index(fork), offset)[..9])
  {
  }

  /**
   In an accepted schedule whose upgrade times do not wrap around, the forks active at genesis are a prefix:
   everything up to the mode is active, if the mode is.
   */
  lemma ActivePrefix(os: seq<Offset>, genesisTime: U64, mode: nat, k: nat)
    requires Ordered(os) && k <= mode < |os| && ActiveAtGenesis(os[mode], genesisTime)
    requires forall i :: 0 <= i < |os| && os[i].Some? ==> genesisTime + os[i].value < TWO_64
    ensures ActiveAtGenesis(os[k], genesisTime)
  {
    assert os[mode].value == 0;
    if k < mode {
      assert os[k].Some? && os[k].value <= os[mode].value;
    }
  }
}
