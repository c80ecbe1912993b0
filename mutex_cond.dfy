/** src/le_mutex_cond.c: reader priority with one mutex, one condition
    variable and a `finished` go-flag that main raises once every thread exists.

    Each function below that changes `Globals` is one section run while holding
    `t_mutex`, taken as one atomic step. A thread blocked in
    `pthread_cond_wait` may wake at any time (POSIX allows spurious wake-ups),
    so the transition system lets a waiting thread re-test its guard at any
    time; the signal/broadcast decisions are computed and their relation to the
    guards is proved separately. */
module MutexCond {
  import opened Census
  import opened Launch

  datatype Globals = Globals(
    readerCount: int,      // reader_count
    writing: bool,         // writing (only ever 0 or 1)
    readsCompleted: int,   // t_reads_completed
    writesCompleted: int,  // t_writes_completed
    finished: bool)        // finished: the go-flag

  /** What a section does to the threads waiting on `cond`. */
  datatype Wakeup = NoWake | SignalOne | BroadcastAll

  function InitialGlobals(): Globals
  {
    Globals(0, false, 0, 0, false)
  }

  /** main's `finished = 1` after the creation loop. */
  function Opened(g: Globals): Globals
  {
    g.(finished := true)
  }

  /** The negation of the reader's second `while` condition. */
  predicate ReaderMayEnter(g: Globals)
  {
    !g.writing
  }

  function ReaderEntered(g: Globals): Globals
  {
    g.(readerCount := g.readerCount + 1)
  }

  function ReaderExited(g: Globals): Globals
  {
    g.(readsCompleted := g.readsCompleted + 1, readerCount := g.readerCount - 1)
  }

  /** A finishing reader signals `cond` when it was the last reader. */
  function ReaderExitWake(g: Globals): Wakeup
  {
    if ReaderExited(g).readerCount == 0 then SignalOne else NoWake
  }

  /** The negation of the writer's second `while` condition. */
  predicate WriterMayEnter(g: Globals)
  {
    !(g.writing || g.readerCount > 0)
  }

  function WriterEntered(g: Globals): Globals
  {
    g.(writing := true)
  }

  function WriterExited(g: Globals): Globals
  {
    g.(writesCompleted := g.writesCompleted + 1, writing := false)
  }

  class Shared {
    var readerCount: int
    var writing: bool
    var readsCompleted: int
    var writesCompleted: int
    var finished: bool

    function Snapshot(): Globals
      reads this
    {
      Globals(readerCount, writing, readsCompleted, writesCompleted, finished)
    }

    constructor ()
      ensures Snapshot() == InitialGlobals()
    {
      readerCount, writing := 0, false;
      readsCompleted, writesCompleted := 0, 0;
      finished := false;
    }

    /** main after the creation loop: raise the flag and broadcast. */
    method Open() returns (wake: Wakeup)
      modifies this
      ensures Snapshot() == Opened(old(Snapshot()))
      ensures wake == BroadcastAll
    {
      finished := true;
      wake := BroadcastAll;
    }

    /** The test of the `while (!finished)` gate: true lets the thread on to its guard. */
    method PassGate() returns (open: bool)
      ensures open <==> Snapshot().finished
    {
      open := finished;
    }

    /** One test of the reader's guard: admit if nobody writes, otherwise change nothing. */
    method TryEnterRead() returns (admitted: bool)
      modifies this
      ensures admitted == ReaderMayEnter(old(Snapshot()))
      ensures Snapshot() == if admitted then ReaderEntered(old(Snapshot())) else old(Snapshot())
    {
      admitted := !writing;
      if admitted {
        readerCount := readerCount + 1;
      }
    }

    method ExitRead() returns (wake: Wakeup)
      modifies this
      ensures wake == ReaderExitWake(old(Snapshot()))
      ensures Snapshot() == ReaderExited(old(Snapshot()))
    {
      readsCompleted := readsCompleted + 1;
      readerCount := readerCount - 1;
      wake := if readerCount == 0 then SignalOne else NoWake;
    }

    /** One test of the writer's guard: start writing if nobody reads or writes, otherwise change nothing. */
    method TryEnterWrite() returns (admitted: bool)
      modifies this
      ensures admitted == WriterMayEnter(old(Snapshot()))
      ensures Snapshot() == if admitted then WriterEntered(old(Snapshot())) else old(Snapshot())
    {
      admitted := !(writing || readerCount > 0);
      if admitted {
        writing := true;
      }
    }

    method ExitWrite() returns (wake: Wakeup)
      modifies this
      ensures wake == BroadcastAll
      ensures Snapshot() == WriterExited(old(Snapshot()))
    {
      writesCompleted := writesCompleted + 1;
      writing := false;
      wake := BroadcastAll;
    }
  }

  // ---------------------------------------------------------------------
  // The whole program as a transition system.

  datatype ReaderPc =
    | RUnborn   // main has not created this thread yet
    | RGate     // created; at (or blocked in) the `while (!finished)` gate
    | RWait     // past the gate, blocked while someone writes
    | RRead     // admitted, reading
    | RDone

  datatype WriterPc =
    | WUnborn
    | WGate
    | WWait     // past the gate, blocked while someone reads or writes
    | WWrite
    | WDone

  datatype System = System(g: Globals, readers: seq<ReaderPc>, writers: seq<WriterPc>)

  datatype Step =
    | CreateReader(k: nat) | CreateWriter(k: nat) | MainOpen
    | ReaderGate(k: nat) | ReaderRetest(k: nat) | ReaderLeave(k: nat)
    | WriterGate(k: nat) | WriterRetest(k: nat) | WriterLeave(k: nat)

  /** Before the creation loop: globals initialised, no thread yet. */
  function Initial(c: Config): System
  {
    System(InitialGlobals(), seq(c.numReaders, _ => RUnborn), seq(c.numWriters, _ => WUnborn))
  }

  /** The creation loop has ended: every thread of the roster exists. */
  predicate AllCreated(s: System)
  {
    && (forall i :: 0 <= i < |s.readers| ==> s.readers[i] != RUnborn)
    && (forall j :: 0 <= j < |s.writers| ==> s.writers[j] != WUnborn)
  }

  predicate Enabled(s: System, step: Step)
  {
    match step
    case CreateReader(k) => k < |s.readers| && s.readers[k] == RUnborn
    case CreateWriter(k) => k < |s.writers| && s.writers[k] == WUnborn
    case MainOpen => !s.g.finished && AllCreated(s)
    case ReaderGate(k) => k < |s.readers| && s.readers[k] == RGate
    case ReaderRetest(k) => k < |s.readers| && s.readers[k] == RWait
    case ReaderLeave(k) => k < |s.readers| && s.readers[k] == RRead
    case WriterGate(k) => k < |s.writers| && s.writers[k] == WGate
    case WriterRetest(k) => k < |s.writers| && s.writers[k] == WWait
    case WriterLeave(k) => k < |s.writers| && s.writers[k] == WWrite
  }

  /** Steps taken by the reader with id `step.k`. */
  predicate IsReaderStep(step: Step)
  {
    step.CreateReader? || step.ReaderGate? || step.ReaderRetest? || step.ReaderLeave?
  }

  /** Steps taken by the writer with id `step.k`. */
  predicate IsWriterStep(step: Step)
  {
    step.CreateWriter? || step.WriterGate? || step.WriterRetest? || step.WriterLeave?
  }

  /** One atomic step: no thread is added or lost, and no completion is undone. */
  function Next(s: System, step: Step): (s': System)
    requires Enabled(s, step)
    ensures |s'.readers| == |s.readers| && |s'.writers| == |s.writers|
    ensures s'.g.readsCompleted >= s.g.readsCompleted && s'.g.writesCompleted >= s.g.writesCompleted
  {
    match step
    case CreateReader(k) => s.(readers := s.readers[k := RGate])
    case CreateWriter(k) => s.(writers := s.writers[k := WGate])
    case MainOpen => s.(g := Opened(s.g))
    case ReaderGate(k) =>
      if !s.g.finished then s
      else if ReaderMayEnter(s.g) then s.(g := ReaderEntered(s.g), readers := s.readers[k := RRead])
      else s.(readers := s.readers[k := RWait])
    case ReaderRetest(k) =>
      if ReaderMayEnter(s.g) then s.(g := ReaderEntered(s.g), readers := s.readers[k := RRead]) else s
    case ReaderLeave(k) =>
      s.(g := ReaderExited(s.g), readers := s.readers[k := RDone])
    case WriterGate(k) =>
      if !s.g.finished then s
      else if WriterMayEnter(s.g) then s.(g := WriterEntered(s.g), writers := s.writers[k := WWrite])
      else s.(writers := s.writers[k := WWait])
    case WriterRetest(k) =>
      if WriterMayEnter(s.g) then s.(g := WriterEntered(s.g), writers := s.writers[k := WWrite]) else s
    case WriterLeave(k) =>
      s.(g := WriterExited(s.g), writers := s.writers[k := WDone])
  }

  function Run(s: System, steps: seq<Step>): System
    decreases |steps|
  {
    if steps == [] then s
    else Run(if Enabled(s, steps[0]) then Next(s, steps[0]) else s, steps[1..])
  }

  ghost predicate Inv(s: System)
  {
    && s.g.readerCount == Count(s.readers, RRead)
    && Count(s.writers, WWrite) == (if s.g.writing then 1 else 0)
    && s.g.readsCompleted == Count(s.readers, RDone)
    && s.g.writesCompleted == Count(s.writers, WDone)
    && (s.g.writing ==> s.g.readerCount == 0)
    // the gate: before the flag, every thread is unborn or held at the gate
    && (!s.g.finished ==>
          && (forall i :: 0 <= i < |s.readers| ==> s.readers[i] in {RUnborn, RGate})
          && (forall j :: 0 <= j < |s.writers| ==> s.writers[j] in {WUnborn, WGate}))
    // the flag is raised only after the creation loop
    && (s.g.finished ==> AllCreated(s))
  }

  lemma InitialInv(c: Config)
    ensures Inv(Initial(c))
  {
    var s := Initial(c);
    CountAbsent(s.readers, RRead);
    CountAbsent(s.readers, RDone);
    CountAbsent(s.writers, WWrite);
    CountAbsent(s.writers, WDone);
  }

  lemma NextInv(s: System, step: Step)
    requires Inv(s) && Enabled(s, step)
    ensures Inv(Next(s, step))
  {
    match step
    case CreateReader(k) => CreateInv(s, step);
    case CreateWriter(k) => CreateInv(s, step);
    case MainOpen =>
    case ReaderGate(k) => ReaderEntryInv(s, step);
    case ReaderRetest(k) => ReaderEntryInv(s, step);
    case ReaderLeave(k) => ReaderLeaveInv(s, k);
    case WriterGate(k) => WriterEntryInv(s, step);
    case WriterRetest(k) => WriterEntryInv(s, step);
    case WriterLeave(k) => WriterLeaveInv(s, k);
  }

  lemma CreateInv(s: System, step: Step)
    requires Inv(s) && Enabled(s, step)
    requires step.CreateReader? || step.CreateWriter?
    ensures Inv(Next(s, step))
  {
    if step.CreateReader? {
      CountAfterUpdate(s.readers, step.k, RGate);
    } else {
      CountAfterUpdate(s.writers, step.k, WGate);
    }
  }

  lemma ReaderLeaveInv(s: System, k: nat)
    requires Inv(s) && Enabled(s, ReaderLeave(k))
    ensures Inv(Next(s, ReaderLeave(k)))
  {
    CountAfterUpdate(s.readers, k, RDone);
    CountPositive(s.readers, k, RRead);
  }

  lemma WriterLeaveInv(s: System, k: nat)
    requires Inv(s) && Enabled(s, WriterLeave(k))
    ensures Inv(Next(s, WriterLeave(k)))
  {
    CountAfterUpdate(s.writers, k, WDone);
  }

  lemma ReaderEntryInv(s: System, step: Step)
    requires Inv(s) && Enabled(s, step)
    requires step.ReaderGate? || step.ReaderRetest?
    ensures Inv(Next(s, step))
  {
    var k := step.k;
    if s.g.finished {
      if ReaderMayEnter(s.g) {
        CountAfterUpdate(s.readers, k, RRead);
      } else {
        CountAfterUpdate(s.readers, k, RWait);
      }
    }
  }

  lemma WriterEntryInv(s: System, step: Step)
    requires Inv(s) && Enabled(s, step)
    requires step.WriterGate? || step.WriterRetest?
    ensures Inv(Next(s, step))
  {
    var k := step.k;
    if s.g.finished {
      if WriterMayEnter(s.g) {
        CountAfterUpdate(s.writers, k, WWrite);
      } else {
        CountAfterUpdate(s.writers, k, WWait);
      }
    }
  }

  lemma {:induction false} RunPreservesInv(s: System, steps: seq<Step>)
    requires Inv(s)
    ensures Inv(Run(s, steps))
    decreases |steps|
  {
    if steps != [] {
      if Enabled(s, steps[0]) {
        NextInv(s, steps[0]);
      }
      RunPreservesInv(if Enabled(s, steps[0]) then Next(s, steps[0]) else s, steps[1..]);
    }
  }
  /** A step moves only the thread taking it, and a returned thread stays returned. */
  lemma NextFrame(s: System, step: Step)
    requires Enabled(s, step)
    ensures forall i :: 0 <= i < |s.readers| && !(IsReaderStep(step) && step.k == i) ==> Next(s, step).readers[i] == s.readers[i]
    ensures forall j :: 0 <= j < |s.writers| && !(IsWriterStep(step) && step.k == j) ==> Next(s, step).writers[j] == s.writers[j]
    ensures forall i :: 0 <= i < |s.readers| && s.readers[i] == RDone ==> Next(s, step).readers[i] == RDone
    ensures forall j :: 0 <= j < |s.writers| && s.writers[j] == WDone ==> Next(s, step).writers[j] == WDone
  {
  }

  /** Over any schedule completions are never undone: both completion counters
      only grow, and a thread that has returned stays returned. */
  lemma {:induction false} RunKeepsDone(s: System, steps: seq<Step>)
    ensures |Run(s, steps).readers| == |s.readers| && |Run(s, steps).writers| == |s.writers|
    ensures Run(s, steps).g.readsCompleted >= s.g.readsCompleted && Run(s, steps).g.writesCompleted >= s.g.writesCompleted
    ensures forall i :: 0 <= i < |s.readers| && s.readers[i] == RDone ==> Run(s, steps).readers[i] == RDone
    ensures forall j :: 0 <= j < |s.writers| && s.writers[j] == WDone ==> Run(s, steps).writers[j] == WDone
    decreases |steps|
  {
    if steps != [] {
      if Enabled(s, steps[0]) {
        NextFrame(s, steps[0]);
      }
      RunKeepsDone(if Enabled(s, steps[0]) then Next(s, steps[0]) else s, steps[1..]);
    }
  }


  ghost predicate Safe(s: System)
  {
    && (forall i, j :: 0 <= i < |s.readers| && 0 <= j < |s.writers| ==> !(s.readers[i] == RRead && s.writers[j] == WWrite))
    && (forall j, k :: 0 <= j < |s.writers| && 0 <= k < |s.writers| && s.writers[j] == WWrite && s.writers[k] == WWrite ==> j == k)
  }

  lemma InvImpliesSafe(s: System)
    requires Inv(s)
    ensures Safe(s)
  {
    Exclusive(s.readers, RRead, s.writers, WWrite);
    AtMostOne(s.writers, WWrite);
  }


  lemma EveryRunIsSafe(c: Config, steps: seq<Step>)
    ensures Inv(Run(Initial(c), steps))
    ensures Safe(Run(Initial(c), steps))
  {
    InitialInv(c);
    RunPreservesInv(Initial(c), steps);
    InvImpliesSafe(Run(Initial(c), steps));
  }

  /** While the flag is down nobody has read, written or finished anything. */
  lemma NothingHappensBeforeGo(s: System)
    requires Inv(s) && !s.g.finished
    ensures s.g.readerCount == 0 && !s.g.writing
    ensures s.g.readsCompleted == 0 && s.g.writesCompleted == 0
  {
    CountAbsent(s.readers, RRead);
    CountAbsent(s.readers, RDone);
    CountAbsent(s.writers, WWrite);
    CountAbsent(s.writers, WDone);
  }

  /** Reader priority: while readers are reading, a reader that tests its guard
      is admitted at once, however many writers are waiting. */
  lemma ActiveReadersLetReadersIn(s: System, k: nat)
    requires Inv(s) && s.g.finished && s.g.readerCount > 0
    requires k < |s.readers| && s.readers[k] in {RGate, RWait}
    ensures var step := if s.readers[k] == RGate then ReaderGate(k) else ReaderRetest(k);
            Next(s, step).readers[k] == RRead
  {
  }

  /** The last reader's signal is sent exactly when a writer's guard has become true. */
  lemma ReaderExitSignalsWriters(s: System, k: nat)
    requires Inv(s) && Enabled(s, ReaderLeave(k))
    ensures ReaderExitWake(s.g) == SignalOne <==> WriterMayEnter(Next(s, ReaderLeave(k)).g)
  {
    CountPositive(s.readers, k, RRead);
  }

  /** After a writer's release, every waiting reader and writer would pass its guard. */
  lemma WriterExitOpensEveryGuard(s: System, k: nat)
    requires Inv(s) && Enabled(s, WriterLeave(k))
    ensures ReaderMayEnter(Next(s, WriterLeave(k)).g)
    ensures WriterMayEnter(Next(s, WriterLeave(k)).g)
  {
    CountPositive(s.writers, k, WWrite);
  }

  lemma AllDoneAccounting(s: System)
    requires Inv(s)
    requires forall i :: 0 <= i < |s.readers| ==> s.readers[i] == RDone
    requires forall j :: 0 <= j < |s.writers| ==> s.writers[j] == WDone
    ensures s.g.readsCompleted == |s.readers| && s.g.writesCompleted == |s.writers|
    ensures s.g.readerCount == 0 && !s.g.writing
  {
    CountUniform(s.readers, RDone);
    CountUniform(s.writers, WDone);
    CountAbsent(s.readers, RRead);
    CountAbsent(s.writers, WWrite);
  }
}
