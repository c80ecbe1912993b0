/** src/le_busy_wait.c: no priority; readers and writers poll under one mutex.

    A poll locks `t_mutex`, tests the guard and, only if it holds, updates the
    state before unlocking; a failed poll unlocks and retries. Each poll and
    each release is one atomic step. */
module BusyWait {
  import opened Census
  import opened Launch

  datatype Globals = Globals(
    readerCount: int,      // reader_count
    writing: bool,         // writing (only ever 0 or 1)
    readsCompleted: int,   // t_reads_completed
    writesCompleted: int)  // t_writes_completed

  function InitialGlobals(): Globals
  {
    Globals(0, false, 0, 0)
  }

  predicate ReaderMayEnter(g: Globals)
  {
    !g.writing
  }

  /** One poll of a reader: the state after it, and whether the reader got in. */
  function ReaderPoll(g: Globals): (Globals, bool)
  {
    if ReaderMayEnter(g) then (g.(readerCount := g.readerCount + 1), true) else (g, false)
  }

  function ReaderExited(g: Globals): Globals
  {
    g.(readerCount := g.readerCount - 1, readsCompleted := g.readsCompleted + 1)
  }

  predicate WriterMayEnter(g: Globals)
  {
    g.readerCount == 0 && !g.writing
  }

  /** One poll of a writer. */
  function WriterPoll(g: Globals): (Globals, bool)
  {
    if WriterMayEnter(g) then (g.(writing := true), true) else (g, false)
  }

  function WriterExited(g: Globals): Globals
  {
    g.(writesCompleted := g.writesCompleted + 1, writing := false)
  }

  /** A failed poll leaves every variable as it was; a successful one changes
      exactly the variable its role claims. */
  lemma PollEffects(g: Globals)
    ensures !ReaderPoll(g).1 ==> ReaderPoll(g).0 == g
    ensures ReaderPoll(g).1 ==> ReaderPoll(g).0 == g.(readerCount := g.readerCount + 1) && !g.writing
    ensures !WriterPoll(g).1 ==> WriterPoll(g).0 == g
    ensures WriterPoll(g).1 ==> ReaderPoll(g).1 && WriterPoll(g).0 == g.(writing := true)
  {
  }

  class Shared {
    var readerCount: int
    var writing: bool
    var readsCompleted: int
    var writesCompleted: int

    function Snapshot(): Globals
      reads this
    {
      Globals(readerCount, writing, readsCompleted, writesCompleted)
    }

    constructor ()
      ensures Snapshot() == InitialGlobals()
    {
      readerCount, writing := 0, false;
      readsCompleted, writesCompleted := 0, 0;
    }

    /** One iteration of the reader's `while (1)` loop. */
    method PollRead() returns (admitted: bool)
      modifies this
      ensures (Snapshot(), admitted) == ReaderPoll(old(Snapshot()))
    {
      admitted := false;
      if !writing {
        readerCount := readerCount + 1;
        admitted := true;
      }
    }

    method ExitRead()
      modifies this
      ensures Snapshot() == ReaderExited(old(Snapshot()))
    {
      readerCount := readerCount - 1;
      readsCompleted := readsCompleted + 1;
    }

    /** One iteration of the writer's `while (1)` loop. */
    method PollWrite() returns (admitted: bool)
      modifies this
      ensures (Snapshot(), admitted) == WriterPoll(old(Snapshot()))
    {
      admitted := false;
      if readerCount == 0 && !writing {
        writing := true;
        admitted := true;
      }
    }

    method ExitWrite()
      modifies this
      ensures Snapshot() == WriterExited(old(Snapshot()))
    {
      writesCompleted := writesCompleted + 1;
      writing := false;
    }
  }

  // ---------------------------------------------------------------------
  // The whole program as a transition system. Threads start polling as soon
  // as they are created; taking them all as created from the start only adds
  // schedules, so what is proved below holds for the program's own.

  datatype ReaderPc = RPoll | RRead | RDone
  datatype WriterPc = WPoll | WWrite | WDone

  datatype System = System(g: Globals, readers: seq<ReaderPc>, writers: seq<WriterPc>)

  datatype Step = ReaderTry(k: nat) | ReaderLeave(k: nat) | WriterTry(k: nat) | WriterLeave(k: nat)

  function Initial(c: Config): System
  {
    System(InitialGlobals(), seq(c.numReaders, _ => RPoll), seq(c.numWriters, _ => WPoll))
  }

  predicate Enabled(s: System, step: Step)
  {
    match step
    case ReaderTry(k) => k < |s.readers| && s.readers[k] == RPoll
    case ReaderLeave(k) => k < |s.readers| && s.readers[k] == RRead
    case WriterTry(k) => k < |s.writers| && s.writers[k] == WPoll
    case WriterLeave(k) => k < |s.writers| && s.writers[k] == WWrite
  }

  /** Steps taken by the reader with id `step.k`. */
  predicate IsReaderStep(step: Step)
  {
    step.ReaderTry? || step.ReaderLeave?
  }

  /** Steps taken by the writer with id `step.k`. */
  predicate IsWriterStep(step: Step)
  {
    step.WriterTry? || step.WriterLeave?
  }

  /** One atomic step: no thread is added or lost, and no completion is undone. */
  function Next(s: System, step: Step): (s': System)
    requires Enabled(s, step)
    ensures |s'.readers| == |s.readers| && |s'.writers| == |s.writers|
    ensures s'.g.readsCompleted >= s.g.readsCompleted && s'.g.writesCompleted >= s.g.writesCompleted
  {
    match step
    case ReaderTry(k) =>
      var (g, admitted) := ReaderPoll(s.g);
      s.(g := g, readers := if admitted then s.readers[k := RRead] else s.readers)
    case ReaderLeave(k) =>
      s.(g := ReaderExited(s.g), readers := s.readers[k := RDone])
    case WriterTry(k) =>
      var (g, admitted) := WriterPoll(s.g);
      s.(g := g, writers := if admitted then s.writers[k := WWrite] else s.writers)
    case WriterLeave(k) =>
      s.(g := WriterExited(s.g), writers := s.writers[k := WDone])
  }

  function Run(s: System, steps: seq<Step>): System
    decreases |steps|
  {
    if steps == [] then s
    else Run(if Enabled(s, steps[0]) then Next(s, steps[0]) else s, steps[1..])
  }

  ghost predicate Inv(s: System)
  {
    && s.g.readerCount == Count(s.readers, RRead)
    && Count(s.writers, WWrite) == (if s.g.writing then 1 else 0)
    && s.g.readsCompleted == Count(s.readers, RDone)
    && s.g.writesCompleted == Count(s.writers, WDone)
    && (s.g.writing ==> s.g.readerCount == 0)
  }

  lemma InitialInv(c: Config)
    ensures Inv(Initial(c))
  {
    var s := Initial(c);
    CountAbsent(s.readers, RRead);
    CountAbsent(s.readers, RDone);
    CountAbsent(s.writers, WWrite);
    CountAbsent(s.writers, WDone);
  }

  lemma NextInv(s: System, step: Step)
    requires Inv(s) && Enabled(s, step)
    ensures Inv(Next(s, step))
  {
    match step
    case ReaderTry(k) =>
      if ReaderMayEnter(s.g) {
        CountAfterUpdate(s.readers, k, RRead);
      }
    case ReaderLeave(k) =>
      CountAfterUpdate(s.readers, k, RDone);
      CountPositive(s.readers, k, RRead);
    case WriterTry(k) =>
      if WriterMayEnter(s.g) {
        CountAfterUpdate(s.writers, k, WWrite);
      }
    case WriterLeave(k) =>
      CountAfterUpdate(s.writers, k, WDone);
  }

  lemma {:induction false} RunPreservesInv(s: System, steps: seq<Step>)
    requires Inv(s)
    ensures Inv(Run(s, steps))
    decreases |steps|
  {
    if steps != [] {
      if Enabled(s, steps[0]) {
        NextInv(s, steps[0]);
      }
      RunPreservesInv(if Enabled(s, steps[0]) then Next(s, steps[0]) else s, steps[1..]);
    }
  }
  /** A step moves only the thread taking it, and a returned thread stays returned. */
  lemma NextFrame(s: System, step: Step)
    requires Enabled(s, step)
    ensures forall i :: 0 <= i < |s.readers| && !(IsReaderStep(step) && step.k == i) ==> Next(s, step).readers[i] == s.readers[i]
    ensures forall j :: 0 <= j < |s.writers| && !(IsWriterStep(step) && step.k == j) ==> Next(s, step).writers[j] == s.writers[j]
    ensures forall i :: 0 <= i < |s.readers| && s.readers[i] == RDone ==> Next(s, step).readers[i] == RDone
    ensures forall j :: 0 <= j < |s.writers| && s.writers[j] == WDone ==> Next(s, step).writers[j] == WDone
  {
  }

  /** Over any schedule completions are never undone: both completion counters
      only grow, and a thread that has returned stays returned. */
  lemma {:induction false} RunKeepsDone(s: System, steps: seq<Step>)
    ensures |Run(s, steps).readers| == |s.readers| && |Run(s, steps).writers| == |s.writers|
    ensures Run(s, steps).g.readsCompleted >= s.g.readsCompleted && Run(s, steps).g.writesCompleted >= s.g.writesCompleted
    ensures forall i :: 0 <= i < |s.readers| && s.readers[i] == RDone ==> Run(s, steps).readers[i] == RDone
    ensures forall j :: 0 <= j < |s.writers| && s.writers[j] == WDone ==> Run(s, steps).writers[j] == WDone
    decreases |steps|
  {
    if steps != [] {
      if Enabled(s, steps[0]) {
        NextFrame(s, steps[0]);
      }
      RunKeepsDone(if Enabled(s, steps[0]) then Next(s, steps[0]) else s, steps[1..]);
    }
  }


  ghost predicate Safe(s: System)
  {
    && (forall i, j :: 0 <= i < |s.readers| && 0 <= j < |s.writers| ==> !(s.readers[i] == RRead && s.writers[j] == WWrite))
    && (forall j, k :: 0 <= j < |s.writers| && 0 <= k < |s.writers| && s.writers[j] == WWrite && s.writers[k] == WWrite ==> j == k)
  }

  lemma InvImpliesSafe(s: System)
    requires Inv(s)
    ensures Safe(s)
  {
    Exclusive(s.readers, RRead, s.writers, WWrite);
    AtMostOne(s.writers, WWrite);
  }


  lemma EveryRunIsSafe(c: Config, steps: seq<Step>)
    ensures Inv(Run(Initial(c), steps))
    ensures Safe(Run(Initial(c), steps))
  {
    InitialInv(c);
    RunPreservesInv(Initial(c), steps);
    InvImpliesSafe(Run(Initial(c), steps));
  }

  /** A reader release takes exactly one reader out and counts exactly one read. */
  lemma ReaderLeaveCountsOnce(s: System, k: nat)
    requires Inv(s) && Enabled(s, ReaderLeave(k))
    ensures var s' := Next(s, ReaderLeave(k));
            s'.g.readsCompleted == s.g.readsCompleted + 1 && s'.g.readerCount == s.g.readerCount - 1 >= 0
  {
    CountPositive(s.readers, k, RRead);
  }

  lemma AllDoneAccounting(s: System)
    requires Inv(s)
    requires forall i :: 0 <= i < |s.readers| ==> s.readers[i] == RDone
    requires forall j :: 0 <= j < |s.writers| ==> s.writers[j] == WDone
    ensures s.g.readsCompleted == |s.readers| && s.g.writesCompleted == |s.writers|
    ensures s.g.readerCount == 0 && !s.g.writing
  {
    CountUniform(s.readers, RDone);
    CountUniform(s.writers, WDone);
    CountAbsent(s.readers, RRead);
    CountAbsent(s.writers, WWrite);
  }
}
