/**
 The persisted sequencer state. Any number of threads persist and read through one lock; a write goes to a
 temporary file, which is synced, closed and renamed into place; and the machine may crash at any point. A
 rename is taken to be atomic and durable; what a crash leaves of a file whose content was not synced, under
 either name, is arbitrary.
 */
module Persistence {
  import opened Basics

  type Bytes = seq<Byte>
  type Thread = nat

  /** How a state is written to a file, and the strict reader: `None` means that the file is invalid. */
  datatype Codec = Codec(encode: bool -> Bytes, decode: Bytes -> Option<bool>)

  ghost predicate RoundTrips(c: Codec) {
    forall b :: c.decode(c.encode(b)) == Some(b)
  }

  /** What reading reports: unset, started or stopped; or that the file is invalid or cannot be read. */
  datatype Report = Unset | Started | Stopped | Invalid | ReadError

  /** Where a thread is: nowhere, at a step of persisting `value`, or reading. */
  datatype Step =
    | Idle
    | Locked(value: bool)
    | TempOpen(value: bool)
    | Written(value: bool)
    | Synced(value: bool)
    | Closed(value: bool)
    | Leaving
    | ReadLocked
    | ReadDone(report: Report)

  /** The file in place and the temporary file, and whether their contents are on disk; the lock; and the threads. */
  datatype Machine = Machine(file: Option<Bytes>, fileSynced: bool, temp: Option<Bytes>, tempSynced: bool,
                             lock: Option<Thread>, threads: map<Thread, Step>)

  /**
   One step of one thread. `Fail` is an error of the current step of persisting, which may leave any content
   in a temporary file that is open. `Crash` loses all threads, and leaves any content where none was synced.
   */
  datatype Action =
    | Persist(t: Thread, value: bool)
    | OpenTemp(t: Thread)
    | Write(t: Thread)
    | Sync(t: Thread)
    | Close(t: Thread)
    | Rename(t: Thread)
    | Fail(t: Thread, partial: Bytes)
    | Unlock(t: Thread)
    | StartRead(t: Thread)
    | Read(t: Thread, ioError: bool)
    | Crash(file: Bytes, temp: Option<Bytes>)

  function StepOf(m: Machine, t: Thread): Step {
    if t in m.threads then m.threads[t] else Idle
  }

  function Move(m: Machine, t: Thread, step: Step): Machine {
    m.(threads := m.threads[t := step])
  }

  function ReportOf(c: Codec, file: Option<Bytes>): Report {
    if file.None? then Unset
    else
      match c.decode(file.value)
      case None => Invalid
      case Some(b) => if b then Started else Stopped
  }

  /** The machine after an action; `None` where the action is not the next one of that thread. */
  function Do(c: Codec, m: Machine, a: Action): Option<Machine> {
    match a
    case Persist(t, value) =>
      if StepOf(m, t).Idle? && m.lock.None? then Some(Move(m.(lock := Some(t)), t, Locked(value))) else None
    case OpenTemp(t) =>
      if StepOf(m, t).Locked? then
        Some(Move(m.(temp := Some([]), tempSynced := false), t, TempOpen(StepOf(m, t).value)))
      else None
    case Write(t) =>
      if StepOf(m, t).TempOpen? then
        Some(Move(m.(temp := Some(c.encode(StepOf(m, t).value))), t, Written(StepOf(m, t).value)))
      else None
    case Sync(t) =>
      if StepOf(m, t).Written? then Some(Move(m.(tempSynced := true), t, Synced(StepOf(m, t).value))) else None
    case Close(t) =>
      if StepOf(m, t).Synced? then Some(Move(m, t, Closed(StepOf(m, t).value))) else None
    case Rename(t) =>
      if StepOf(m, t).Closed? then
        Some(Move(m.(file := m.temp, fileSynced := m.tempSynced, temp := None, tempSynced := false), t, Leaving))
      else None
    case Fail(t, partial) =>
      var step := StepOf(m, t);
      if step.TempOpen? then Some(Move(m.(temp := Some(partial)), t, Leaving))
      else if step.Locked? || step.Written? || step.Synced? || step.Closed? then Some(Move(m, t, Leaving))
      else None
    case Unlock(t) =>
      if StepOf(m, t).Leaving? || StepOf(m, t).ReadDone? then Some(Move(m.(lock := None), t, Idle)) else None
    case StartRead(t) =>
      if StepOf(m, t).Idle? && m.lock.None? then Some(Move(m.(lock := Some(t)), t, ReadLocked)) else None
    case Read(t, ioError) =>
      if StepOf(m, t).ReadLocked? then
        Some(Move(m, t, ReadDone(if ioError && m.file.Some? then ReadError else ReportOf(c, m.file))))
      else None
    case Crash(file, temp) =>
      Some(Machine(if m.fileSynced then m.file else Some(file), m.fileSynced,
                   if m.tempSynced then m.temp else temp, m.tempSynced, None, map[]))
  }

  function Run(c: Codec, m: Machine, actions: seq<Action>): Option<Machine>
    decreases |actions|
  {
    if actions == [] then Some(m)
    else
      var m' :- Run(c, m, actions[..|actions| - 1]);
      Do(c, m', actions[|actions| - 1])
  }

  /** The value whose rename completed last in a run, or the one there was before. */
  function LastRenamed(c: Codec, m: Machine, actions: seq<Action>, before: Option<bool>): Option<bool>
    decreases |actions|
  {
    if actions == [] then before
    else
      var init, a := actions[..|actions| - 1], actions[|actions| - 1];
      var m' := Run(c, m, init);
      if a.Rename? && m'.Some? && StepOf(m'.value, a.t).Closed? then Some(StepOf(m'.value, a.t).value)
      else LastRenamed(c, m, init, before)
  }

  function Reported(last: Option<bool>): Report {
    if last.None? then Unset else if last.value then Started else Stopped
  }

  // ----- what every step keeps -----

  /** The thread is between locking and unlocking. */
  predicate Holds(step: Step) {
    !step.Idle?
  }

  /** What the temporary file holds for a thread at this step. */
  predicate TempReady(c: Codec, m: Machine, step: Step) {
    match step
    case Written(v) => m.temp == Some(c.encode(v))
    case Synced(v) => m.temp == Some(c.encode(v)) && m.tempSynced
    case Closed(v) => m.temp == Some(c.encode(v)) && m.tempSynced
    case _ => true
  }

  ghost predicate Safe(c: Codec, m: Machine, last: Option<bool>) {
    && m.fileSynced && ReportOf(c, m.file) == Reported(last)
    && (forall t: Thread :: Holds(StepOf(m, t)) ==> m.lock == Some(t))
    && (forall t: Thread :: TempReady(c, m, StepOf(m, t)))
    && (forall t: Thread :: StepOf(m, t).ReadDone? ==>
          StepOf(m, t).report == ReadError || StepOf(m, t).report == Reported(last))
  }

  function Renames(m: Machine, a: Action, last: Option<bool>): Option<bool> {
    if a.Rename? && StepOf(m, a.t).Closed? then Some(StepOf(m, a.t).value) else last
  }

  lemma StepSafe(c: Codec, m: Machine, last: Option<bool>, a: Action, m': Machine)
    requires RoundTrips(c) && Safe(c, m, last) && Do(c, m, a) == Some(m')
    ensures Safe(c, m', Renames(m, a, last))
  {
    if !a.Crash? {
      var t := a.t;
      assert forall u: Thread :: u != t ==> StepOf(m', u) == StepOf(m, u);
      assert Holds(StepOf(m, t)) ==> forall u: Thread :: u != t ==> StepOf(m, u).Idle?;
    }
  }

  lemma {:induction false} RunSafe(c: Codec, m: Machine, actions: seq<Action>, before: Option<bool>, m': Machine)
    requires RoundTrips(c) && Safe(c, m, before) && Run(c, m, actions) == Some(m')
    ensures Safe(c, m', LastRenamed(c, m, actions, before))
    decreases |actions|
  {
    if actions != [] {
      var init, a := actions[..|actions| - 1], actions[|actions| - 1];
      var m1 := Run(c, m, init).value;
      RunSafe(c, m, init, before, m1);
      StepSafe(c, m1, LastRenamed(c, m, init, before), a, m');
    }
  }

  /** No thread is running; the file is missing or valid; a leftover temporary file may hold anything. */
  predicate Initial(c: Codec, m: Machine, before: Option<bool>) {
    m.lock.None? && m.threads == map[] && m.fileSynced && ReportOf(c, m.file) == Reported(before)
  }

  /**
   Crash safety. After any run of persists and reads, interleaved in any way, with failures and crashes at
   any step: the file in place reports the value whose rename completed last, or what there was before if
   none did; a read that is done reported that, or an I/O error, and never an invalid file.
   */
  lemma CrashSafe(c: Codec, m: Machine, actions: seq<Action>, before: Option<bool>, m': Machine)
    requires RoundTrips(c) && Initial(c, m, before) && Run(c, m, actions) == Some(m')
    ensures var last := LastRenamed(c, m, actions, before);
            && ReportOf(c, m'.file) == (match last case None => Unset case Some(b) => if b then Started else Stopped)
            && forall t: Thread :: StepOf(m', t).ReadDone? ==>
                 StepOf(m', t).report == ReadError || StepOf(m', t).report == ReportOf(c, m'.file)
    ensures forall t: Thread, u: Thread :: Holds(StepOf(m', t)) && Holds(StepOf(m', u)) ==> t == u
  {
    RunSafe(c, m, actions, before, m');
  }

  // ----- the two operations, run without interruption -----

  lemma RunOneMore(c: Codec, m: Machine, actions: seq<Action>, a: Action)
    ensures Run(c, m, actions + [a]) ==
            match Run(c, m, actions)
            case None => None
            case Some(m') => Do(c, m', a)
  {
    assert (actions + [a])[..|actions|] == actions;
  }

  /** The step of persisting at which the file system reports an error, if it does. */
  datatype Fault = AtOpen | AtWrite(partial: Bytes) | AtSync | AtClose | AtRename | NoFault

  class ActiveConfigPersistence {
    const codec: Codec
    var m: Machine

    constructor (codec: Codec, m: Machine)
      ensures this.codec == codec && this.m == m
    {
      this.codec, this.m := codec, m;
    }

    /** Take one step; `trace` are the steps since `start`. */
    method Perform(a: Action, ghost start: Machine, ghost trace: seq<Action>)
      requires Run(codec, start, trace) == Some(m) && Do(codec, m, a).Some?
      modifies this
      ensures Some(m) == Do(codec, old(m), a)
      ensures Run(codec, start, trace + [a]) == Some(m)
    {
      RunOneMore(codec, start, trace, a);
      m := Do(codec, m, a).value;
    }

    /** Write the value to the temporary file. */
    method WriteTemp(t: Thread, value: bool, fault: Fault, ghost start: Machine, ghost before: seq<Action>)
      returns (ok: bool, ghost trace: seq<Action>)
      requires Run(codec, start, before) == Some(m) && StepOf(m, t) == Locked(value)
      modifies this
      ensures Run(codec, start, trace) == Some(m)
      ensures ok <==> !fault.AtOpen? && !fault.AtWrite?
      ensures ok ==> StepOf(m, t) == Written(value) && m.temp == Some(codec.encode(value))
      ensures !ok ==> StepOf(m, t).Idle? && m.lock.None?
      ensures m.file == old(m.file) && m.fileSynced == old(m.fileSynced)
    {
      trace := before;
      if fault.AtOpen? {
        trace := GiveUp(t, [], start, trace);
        return false, trace;
      }
      Perform(OpenTemp(t), start, trace);
      trace := trace + [OpenTemp(t)];
      if fault.AtWrite? {
        trace := GiveUp(t, fault.partial, start, trace);
        return false, trace;
      }
      Perform(Write(t), start, trace);
      return true, trace + [Write(t)];
    }

    /** Sync and close the temporary file. */
    method CloseTemp(t: Thread, value: bool, fault: Fault, ghost start: Machine, ghost before: seq<Action>)
      returns (ok: bool, ghost trace: seq<Action>)
      requires Run(codec, start, before) == Some(m) && StepOf(m, t) == Written(value)
      modifies this
      ensures Run(codec, start, trace) == Some(m)
      ensures ok <==> !fault.AtSync? && !fault.AtClose?
      ensures ok ==> StepOf(m, t) == Closed(value) && m.temp == old(m.temp) && m.tempSynced
      ensures !ok ==> StepOf(m, t).Idle? && m.lock.None?
      ensures m.file == old(m.file) && m.fileSynced == old(m.fileSynced)
    {
      trace := before;
      if fault.AtSync? {
        trace := GiveUp(t, [], start, trace);
        return false, trace;
      }
      Perform(Sync(t), start, trace);
      trace := trace + [Sync(t)];
      if fault.AtClose? {
        trace := GiveUp(t, [], start, trace);
        return false, trace;
      }
      Perform(Close(t), start, trace);
      return true, trace + [Close(t)];
    }

    /** Persist a value: it is in place, and on disk, exactly if no step fails; otherwise the file is untouched. */
    method Persist(t: Thread, value: bool, fault: Fault) returns (ok: bool, ghost trace: seq<Action>)
      requires StepOf(m, t).Idle? && m.lock.None?
      modifies this
      ensures Run(codec, old(m), trace) == Some(m)
      ensures ok <==> fault.NoFault?
      ensures ok ==> m.file == Some(codec.encode(value)) && m.fileSynced && m.temp.None?
      ensures !ok ==> m.file == old(m.file) && m.fileSynced == old(m.fileSynced)
      ensures StepOf(m, t).Idle? && m.lock.None?
    {
      ghost var start := m;
      Perform(Action.Persist(t, value), start, []);
      ok, trace := WriteTemp(t, value, fault, start, [] + [Action.Persist(t, value)]);
      if !ok {
        return;
      }
      ok, trace := CloseTemp(t, value, fault, start, trace);
      if !ok {
        return;
      }
      if fault.AtRename? {
        trace := GiveUp(t, [], start, trace);
        return false, trace;
      }
      trace := PutInPlace(t, start, trace);
    }

    /** Rename the temporary file into place and release the lock. */
    method PutInPlace(t: Thread, ghost start: Machine, ghost trace: seq<Action>) returns (ghost all: seq<Action>)
      requires Run(codec, start, trace) == Some(m) && StepOf(m, t).Closed?
      modifies this
      ensures Run(codec, start, all) == Some(m)
      ensures m.file == old(m.temp) && m.fileSynced == old(m.tempSynced) && m.temp.None?
      ensures StepOf(m, t).Idle? && m.lock.None?
    {
      Perform(Rename(t), start, trace);
      Perform(Unlock(t), start, trace + [Rename(t)]);
      all := trace + [Rename(t)] + [Unlock(t)];
    }

    /** Return with an error: whatever is open is closed and the lock released. */
    method GiveUp(t: Thread, partial: Bytes, ghost start: Machine, ghost trace: seq<Action>)
      returns (ghost all: seq<Action>)
      requires Run(codec, start, trace) == Some(m) && Do(codec, m, Fail(t, partial)).Some?
      modifies this
      ensures Run(codec, start, all) == Some(m)
      ensures m.file == old(m.file) && m.fileSynced == old(m.fileSynced)
      ensures StepOf(m, t).Idle? && m.lock.None?
    {
      Perform(Fail(t, partial), start, trace);
      Perform(Unlock(t), start, trace + [Fail(t, partial)]);
      all := trace + [Fail(t, partial)] + [Unlock(t)];
    }

    method SequencerState(t: Thread, ioError: bool) returns (report: Report, ghost trace: seq<Action>)
      requires StepOf(m, t).Idle? && m.lock.None?
      modifies this
      ensures Run(codec, old(m), trace) == Some(m)
      ensures report == if ioError && m.file.Some? then ReadError else ReportOf(codec, m.file)
      ensures m.file == old(m.file) && StepOf(m, t).Idle? && m.lock.None?
    {
      ghost var start := m;
      Perform(StartRead(t), start, []);
      Perform(Read(t, ioError), start, [StartRead(t)]);
      report := StepOf(m, t).report;
      Perform(Unlock(t), start, [StartRead(t)] + [Read(t, ioError)]);
      trace := [StartRead(t)] + [Read(t, ioError)] + [Unlock(t)];
    }
  }
}
