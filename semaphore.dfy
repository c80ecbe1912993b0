/** src/le_semaphore.c: writer priority built from four POSIX semaphores.

    The binary semaphore `mutex` is not a state variable here: every function
    below that changes `Globals` is one critical section it protects, taken as
    one atomic step. `start_sem`, `write_sem` and `read_sem` are counting
    semaphores and are kept as their values; `sem_wait` on them can only
    complete when the value is positive. */
module Semaphore {
  import opened Census
  import opened Launch

  /** The globals of the program that the threads share. */
  datatype Globals = Globals(
    readerCount: int,      // reader_count: readers admitted and not yet done
    writerCount: int,      // writer_count: writers registered and not yet done
    writing: bool,         // writing (only ever 0 or 1)
    readsCompleted: int,   // t_reads_completed
    writesCompleted: int,  // t_writes_completed
    numReaders: nat,       // num_readers, read by the writer release
    startSem: int,         // value of start_sem
    writeSem: int,         // value of write_sem
    readSem: int)          // value of read_sem

  /** The state main sets up before creating threads: every semaphore at 0
      (the mutex at 1, implicit) and every counter at 0. */
  function InitialGlobals(numReaders: nat): Globals
  {
    Globals(0, 0, false, 0, 0, numReaders, 0, 0, 0)
  }

  /** `sem_post(&start_sem)` in main's release loop. */
  function StartPosted(g: Globals): Globals
  {
    g.(startSem := g.startSem + 1)
  }

  /** `sem_wait(&start_sem)` at the top of both thread bodies. */
  function StartTaken(g: Globals): Globals
    requires g.startSem > 0
  {
    g.(startSem := g.startSem - 1)
  }

  /** The negation of the reader's `while` condition: no writer registered and none writing. */
  predicate ReaderMayEnter(g: Globals)
  {
    !(g.writerCount > 0 || g.writing)
  }

  /** `reader_count++` once the reader's loop exits. */
  function ReaderEntered(g: Globals): Globals
  {
    g.(readerCount := g.readerCount + 1)
  }

  /** `sem_wait(&read_sem)` of a reader that found the guard false. */
  function ReadTokenTaken(g: Globals): Globals
    requires g.readSem > 0
  {
    g.(readSem := g.readSem - 1)
  }

  /** Whether a finishing reader posts `write_sem`, decided on the counters it has just updated. */
  predicate ReaderExitPostsWrite(g: Globals)
  {
    g.readerCount == 0 || g.writerCount > 0
  }

  /** The reader's release section. */
  function ReaderExited(g: Globals): Globals
  {
    var g1 := g.(readsCompleted := g.readsCompleted + 1, readerCount := g.readerCount - 1);
    if ReaderExitPostsWrite(g1) then g1.(writeSem := g1.writeSem + 1) else g1
  }

  /** `writer_count++`, the first statement of the writer's entry section. */
  function WriterRegistered(g: Globals): Globals
  {
    g.(writerCount := g.writerCount + 1)
  }

  /** The negation of the writer's `while` condition: no reader admitted and none writing. */
  predicate WriterMayEnter(g: Globals)
  {
    !(g.readerCount > 0 || g.writing)
  }

  /** `writing = 1` once the writer's loop exits. */
  function WriterEntered(g: Globals): Globals
  {
    g.(writing := true)
  }

  /** `sem_wait(&write_sem)` of a writer that found the guard false. */
  function WriteTokenTaken(g: Globals): Globals
    requires g.writeSem > 0
  {
    g.(writeSem := g.writeSem - 1)
  }

  /** The writer's release section: one `write_sem` post if writers are still
      registered, otherwise `num_readers` posts of `read_sem`. */
  function WriterExited(g: Globals): Globals
  {
    var g1 := g.(writerCount := g.writerCount - 1, writesCompleted := g.writesCompleted + 1, writing := false);
    if g1.writerCount > 0 then g1.(writeSem := g1.writeSem + 1)
    else g1.(readSem := g1.readSem + g1.numReaders)
  }

  /** The globals as the C program keeps them, updated in place by each critical section. */
  class Shared {
    var readerCount: int
    var writerCount: int
    var writing: bool
    var readsCompleted: int
    var writesCompleted: int
    var numReaders: nat
    var startSem: int
    var writeSem: int
    var readSem: int

    function Snapshot(): Globals
      reads this
    {
      Globals(readerCount, writerCount, writing, readsCompleted, writesCompleted,
              numReaders, startSem, writeSem, readSem)
    }

    constructor (numReaders: nat)
      ensures Snapshot() == InitialGlobals(numReaders)
    {
      readerCount, writerCount, writing := 0, 0, false;
      readsCompleted, writesCompleted := 0, 0;
      this.numReaders := numReaders;
      startSem, writeSem, readSem := 0, 0, 0;
    }

    /** main's `for` loop posting `start_sem` once per thread, seen alone. */
    method PostStartAll(totalThreads: nat)
      modifies this
      ensures Snapshot() == old(Snapshot()).(startSem := old(startSem) + totalThreads)
    {
      var i := 0;
      while i < totalThreads
        invariant 0 <= i <= totalThreads
        invariant Snapshot() == old(Snapshot()).(startSem := old(startSem) + i)
      {
        startSem := startSem + 1;
        i := i + 1;
      }
    }

    method WaitStart()
      requires startSem > 0
      modifies this
      ensures Snapshot() == StartTaken(old(Snapshot()))
    {
      startSem := startSem - 1;
    }

    /** One pass of the reader's entry section: test the guard and, if it
        holds, register as reading; otherwise change nothing. */
    method TryEnterRead() returns (admitted: bool)
      modifies this
      ensures admitted == ReaderMayEnter(old(Snapshot()))
      ensures Snapshot() == if admitted then ReaderEntered(old(Snapshot())) else old(Snapshot())
    {
      admitted := !(writerCount > 0 || writing);
      if admitted {
        readerCount := readerCount + 1;
      }
    }

    method WaitReadSem()
      requires readSem > 0
      modifies this
      ensures Snapshot() == ReadTokenTaken(old(Snapshot()))
    {
      readSem := readSem - 1;
    }

    /** The reader's release section; `postedWrite` says whether `write_sem` was posted. */
    method ExitRead() returns (postedWrite: bool)
      modifies this
      ensures Snapshot() == ReaderExited(old(Snapshot()))
      ensures postedWrite <==> Snapshot().writeSem == old(writeSem) + 1
    {
      readsCompleted := readsCompleted + 1;
      readerCount := readerCount - 1;
      postedWrite := readerCount == 0 || writerCount > 0;
      if postedWrite {
        writeSem := writeSem + 1;
      }
    }

    method RegisterWriter()
      modifies this
      ensures Snapshot() == WriterRegistered(old(Snapshot()))
    {
      writerCount := writerCount + 1;
    }

    /** One pass of the writer's test: enter writing if the guard holds; otherwise change nothing. */
    method TryEnterWrite() returns (admitted: bool)
      modifies this
      ensures admitted == WriterMayEnter(old(Snapshot()))
      ensures Snapshot() == if admitted then WriterEntered(old(Snapshot())) else old(Snapshot())
    {
      admitted := !(readerCount > 0 || writing);
      if admitted {
        writing := true;
      }
    }

    method WaitWriteSem()
      requires writeSem > 0
      modifies this
      ensures Snapshot() == WriteTokenTaken(old(Snapshot()))
    {
      writeSem := writeSem - 1;
    }

    /** The writer's release section, with its `for` loop over `read_sem`. */
    method ExitWrite()
      modifies this
      ensures Snapshot() == WriterExited(old(Snapshot()))
    {
      writerCount := writerCount - 1;
      writesCompleted := writesCompleted + 1;
      writing := false;
      if writerCount > 0 {
        writeSem := writeSem + 1;
      } else {
        var i := 0;
        while i < numReaders
          invariant 0 <= i <= numReaders
          invariant Snapshot() == old(Snapshot()).(writerCount := old(writerCount) - 1,
                                                   writesCompleted := old(writesCompleted) + 1,
                                                   writing := false,
                                                   readSem := old(readSem) + i)
        {
          readSem := readSem + 1;
          i := i + 1;
        }
      }
    }
  }

  // ---------------------------------------------------------------------
  // The whole program as a transition system: main plus one program
  // counter per thread.

  /** Where a reader thread is. */
  datatype ReaderPc =
    | RStart    // blocked in sem_wait(&start_sem)
    | RTest     // about to take the mutex and test the guard
    | RWait     // blocked in sem_wait(&read_sem)
    | RRead     // admitted, reading
    | RDone     // returned

  /** Where a writer thread is. */
  datatype WriterPc =
    | WStart     // blocked in sem_wait(&start_sem)
    | WRegister  // about to take the mutex, register and test
    | WWait      // registered, blocked in sem_wait(&write_sem)
    | WRetest    // registered, about to take the mutex and test again
    | WWrite     // writing
    | WDone      // returned

  /** `readers[k]` is the reader with id k, `writers[k]` the writer with id k;
      `posted` counts main's `sem_post(&start_sem)` calls so far. */
  datatype System = System(g: Globals, readers: seq<ReaderPc>, writers: seq<WriterPc>, posted: nat)

  datatype Step =
    | MainPostStart
    | ReaderStart(k: nat) | ReaderTest(k: nat) | ReaderWake(k: nat) | ReaderLeave(k: nat)
    | WriterStart(k: nat) | WriterRegister(k: nat) | WriterWake(k: nat) | WriterRetest(k: nat) | WriterLeave(k: nat)

  /** Every thread created and blocked on `start_sem`, nothing posted yet. */
  function Initial(c: Config): System
  {
    System(InitialGlobals(c.numReaders), seq(c.numReaders, _ => RStart), seq(c.numWriters, _ => WStart), 0)
  }

  predicate Enabled(s: System, step: Step)
  {
    match step
    case MainPostStart => s.posted < |s.readers| + |s.writers|
    case ReaderStart(k) => k < |s.readers| && s.readers[k] == RStart && s.g.startSem > 0
    case ReaderTest(k) => k < |s.readers| && s.readers[k] == RTest
    case ReaderWake(k) => k < |s.readers| && s.readers[k] == RWait && s.g.readSem > 0
    case ReaderLeave(k) => k < |s.readers| && s.readers[k] == RRead
    case WriterStart(k) => k < |s.writers| && s.writers[k] == WStart && s.g.startSem > 0
    case WriterRegister(k) => k < |s.writers| && s.writers[k] == WRegister
    case WriterWake(k) => k < |s.writers| && s.writers[k] == WWait && s.g.writeSem > 0
    case WriterRetest(k) => k < |s.writers| && s.writers[k] == WRetest
    case WriterLeave(k) => k < |s.writers| && s.writers[k] == WWrite
  }

  /** Steps taken by the reader with id `step.k`. */
  predicate IsReaderStep(step: Step)
  {
    step.ReaderStart? || step.ReaderTest? || step.ReaderWake? || step.ReaderLeave?
  }

  /** Steps taken by the writer with id `step.k`. */
  predicate IsWriterStep(step: Step)
  {
    step.WriterStart? || step.WriterRegister? || step.WriterWake? || step.WriterRetest? || step.WriterLeave?
  }

  /** One atomic step: no thread is added or lost, and no completion is undone. */
  function Next(s: System, step: Step): (s': System)
    requires Enabled(s, step)
    ensures |s'.readers| == |s.readers| && |s'.writers| == |s.writers|
    ensures s'.g.readsCompleted >= s.g.readsCompleted && s'.g.writesCompleted >= s.g.writesCompleted
  {
    match step
    case MainPostStart =>
      s.(g := StartPosted(s.g), posted := s.posted + 1)
    case ReaderStart(k) =>
      s.(g := StartTaken(s.g), readers := s.readers[k := RTest])
    case ReaderTest(k) =>
      if ReaderMayEnter(s.g) then s.(g := ReaderEntered(s.g), readers := s.readers[k := RRead])
      else s.(readers := s.readers[k := RWait])
    case ReaderWake(k) =>
      s.(g := ReadTokenTaken(s.g), readers := s.readers[k := RTest])
    case ReaderLeave(k) =>
      s.(g := ReaderExited(s.g), readers := s.readers[k := RDone])
    case WriterStart(k) =>
      s.(g := StartTaken(s.g), writers := s.writers[k := WRegister])
    case WriterRegister(k) =>
      var g1 := WriterRegistered(s.g);
      if WriterMayEnter(g1) then s.(g := WriterEntered(g1), writers := s.writers[k := WWrite])
      else s.(g := g1, writers := s.writers[k := WWait])
    case WriterWake(k) =>
      s.(g := WriteTokenTaken(s.g), writers := s.writers[k := WRetest])
    case WriterRetest(k) =>
      if WriterMayEnter(s.g) then s.(g := WriterEntered(s.g), writers := s.writers[k := WWrite])
      else s.(writers := s.writers[k := WWait])
    case WriterLeave(k) =>
      s.(g := WriterExited(s.g), writers := s.writers[k := WDone])
  }

  /** Any schedule: the steps are taken in order, a step that is not enabled is skipped. */
  function Run(s: System, steps: seq<Step>): System
    decreases |steps|
  {
    if steps == [] then s
    else Run(if Enabled(s, steps[0]) then Next(s, steps[0]) else s, steps[1..])
  }

  /** Writers that have executed `writer_count++` and not yet released. */
  function Registered(s: System): nat
  {
    Count(s.writers, WWait) + Count(s.writers, WRetest) + Count(s.writers, WWrite)
  }

  /** What holds between any two critical sections. */
  ghost predicate Inv(s: System)
  {
    // the counters count threads
    && s.g.numReaders == |s.readers|
    && s.g.readerCount == Count(s.readers, RRead)
    && s.g.writerCount == Registered(s)
    && Count(s.writers, WWrite) == (if s.g.writing then 1 else 0)
    && s.g.readsCompleted == Count(s.readers, RDone)
    && s.g.writesCompleted == Count(s.writers, WDone)
    // writing excludes reading
    && (s.g.writing ==> s.g.readerCount == 0)
    // every start_sem post is either pending or consumed by one thread
    && s.posted <= |s.readers| + |s.writers|
    && s.g.startSem >= 0
    && s.g.startSem + (|s.readers| - Count(s.readers, RStart)) + (|s.writers| - Count(s.writers, WStart)) == s.posted
    // no lost wake-up: once readers may enter, every blocked reader has a read_sem token
    && s.g.readSem >= 0
    && (ReaderMayEnter(s.g) ==> s.g.readSem >= Count(s.readers, RWait))
    // no lost wake-up: a blocked writer whose guard holds has a write_sem token or a writer re-testing
    && s.g.writeSem >= 0
    && (Count(s.writers, WWait) > 0 && WriterMayEnter(s.g) ==> s.g.writeSem > 0 || Count(s.writers, WRetest) > 0)
  }

  lemma InitialInv(c: Config)
    ensures Inv(Initial(c))
  {
    var s := Initial(c);
    CountUniform(s.readers, RStart);
    CountUniform(s.writers, WStart);
    CountAbsent(s.readers, RRead);
    CountAbsent(s.readers, RDone);
    CountAbsent(s.readers, RWait);
    CountAbsent(s.writers, WWait);
    CountAbsent(s.writers, WRetest);
    CountAbsent(s.writers, WWrite);
    CountAbsent(s.writers, WDone);
  }

  /** Every step, main's or a thread's, preserves the invariant. */
  lemma NextInv(s: System, step: Step)
    requires Inv(s) && Enabled(s, step)
    ensures Inv(Next(s, step))
  {
    if step.MainPostStart? {
    } else if step.ReaderStart? || step.ReaderTest? || step.ReaderWake? || step.ReaderLeave? {
      ReaderStepInv(s, step);
    } else {
      WriterStepInv(s, step);
    }
  }

  lemma ReaderStepInv(s: System, step: Step)
    requires Inv(s) && Enabled(s, step)
    requires step.ReaderStart? || step.ReaderTest? || step.ReaderWake? || step.ReaderLeave?
    ensures Inv(Next(s, step))
  {
    match step
    case ReaderStart(k) =>
      ReaderStartInv(s, k);
    case ReaderTest(k) =>
      ReaderTestInv(s, k);
    case ReaderWake(k) =>
      ReaderWakeInv(s, k);
    case ReaderLeave(k) =>
      ReaderLeaveInv(s, k);
  }

  /** A reader leaving `sem_wait` on `start_sem`. */
  lemma ReaderStartInv(s: System, k: nat)
    requires Inv(s) && Enabled(s, ReaderStart(k))
    ensures Inv(Next(s, ReaderStart(k)))
  {
    CountAfterUpdate(s.readers, k, RTest);
  }

  /** A reader leaving `sem_wait` on `read_sem`. */
  lemma ReaderWakeInv(s: System, k: nat)
    requires Inv(s) && Enabled(s, ReaderWake(k))
    ensures Inv(Next(s, ReaderWake(k)))
  {
    CountAfterUpdate(s.readers, k, RTest);
  }

  lemma ReaderTestInv(s: System, k: nat)
    requires Inv(s) && Enabled(s, ReaderTest(k))
    ensures Inv(Next(s, ReaderTest(k)))
  {
    if ReaderMayEnter(s.g) {
      CountAfterUpdate(s.readers, k, RRead);
    } else {
      CountAfterUpdate(s.readers, k, RWait);
    }
  }

  lemma ReaderLeaveInv(s: System, k: nat)
    requires Inv(s) && Enabled(s, ReaderLeave(k))
    ensures Inv(Next(s, ReaderLeave(k)))
  {
    CountAfterUpdate(s.readers, k, RDone);
    CountPositive(s.readers, k, RRead);
  }

  lemma WriterStepInv(s: System, step: Step)
    requires Inv(s) && Enabled(s, step)
    requires step.WriterStart? || step.WriterRegister? || step.WriterWake? || step.WriterRetest? || step.WriterLeave?
    ensures Inv(Next(s, step))
  {
    match step
    case WriterStart(k) =>
      WriterStartInv(s, k);
    case WriterRegister(k) =>
      WriterRegisterInv(s, k);
    case WriterWake(k) =>
      WriterWakeInv(s, k);
    case WriterRetest(k) =>
      WriterRetestInv(s, k);
    case WriterLeave(k) =>
      WriterLeaveInv(s, k);
  }

  /** A writer leaving `sem_wait` on `start_sem`. */
  lemma WriterStartInv(s: System, k: nat)
    requires Inv(s) && Enabled(s, WriterStart(k))
    ensures Inv(Next(s, WriterStart(k)))
  {
    CountAfterUpdate(s.writers, k, WRegister);
  }

  /** A writer leaving `sem_wait` on `write_sem`. */
  lemma WriterWakeInv(s: System, k: nat)
    requires Inv(s) && Enabled(s, WriterWake(k))
    ensures Inv(Next(s, WriterWake(k)))
  {
    CountAfterUpdate(s.writers, k, WRetest);
  }

  lemma WriterRegisterInv(s: System, k: nat)
    requires Inv(s) && Enabled(s, WriterRegister(k))
    ensures Inv(Next(s, WriterRegister(k)))
  {
    if WriterMayEnter(WriterRegistered(s.g)) {
      CountAfterUpdate(s.writers, k, WWrite);
    } else {
      CountAfterUpdate(s.writers, k, WWait);
    }
  }

  lemma WriterRetestInv(s: System, k: nat)
    requires Inv(s) && Enabled(s, WriterRetest(k))
    ensures Inv(Next(s, WriterRetest(k)))
  {
    if WriterMayEnter(s.g) {
      CountAfterUpdate(s.writers, k, WWrite);
    } else {
      CountAfterUpdate(s.writers, k, WWait);
    }
  }

  lemma WriterLeaveInv(s: System, k: nat)
    requires Inv(s) && Enabled(s, WriterLeave(k))
    ensures Inv(Next(s, WriterLeave(k)))
  {
    CountAfterUpdate(s.writers, k, WDone);
    var s' := Next(s, WriterLeave(k));
    assert s'.g.writerCount == Count(s'.writers, WWait) + Count(s'.writers, WRetest);
    assert s'.g.readerCount == 0 && !s'.g.writing;
  }

  lemma {:induction false} RunPreservesInv(s: System, steps: seq<Step>)
    requires Inv(s)
    ensures Inv(Run(s, steps))
    decreases |steps|
  {
    if steps != [] {
      var s1 := if Enabled(s, steps[0]) then Next(s, steps[0]) else s;
      if Enabled(s, steps[0]) {
        NextInv(s, steps[0]);
      }
      RunPreservesInv(s1, steps[1..]);
    }
  }
  /** A step moves only the thread taking it, and a returned thread stays returned. */
  lemma NextFrame(s: System, step: Step)
    requires Enabled(s, step)
    ensures forall i :: 0 <= i < |s.readers| && !(IsReaderStep(step) && step.k == i) ==> Next(s, step).readers[i] == s.readers[i]
    ensures forall j :: 0 <= j < |s.writers| && !(IsWriterStep(step) && step.k == j) ==> Next(s, step).writers[j] == s.writers[j]
    ensures forall i :: 0 <= i < |s.readers| && s.readers[i] == RDone ==> Next(s, step).readers[i] == RDone
    ensures forall j :: 0 <= j < |s.writers| && s.writers[j] == WDone ==> Next(s, step).writers[j] == WDone
  {
  }

  /** Over any schedule completions are never undone: both completion counters
      only grow, and a thread that has returned stays returned. */
  lemma {:induction false} RunKeepsDone(s: System, steps: seq<Step>)
    ensures |Run(s, steps).readers| == |s.readers| && |Run(s, steps).writers| == |s.writers|
    ensures Run(s, steps).g.readsCompleted >= s.g.readsCompleted && Run(s, steps).g.writesCompleted >= s.g.writesCompleted
    ensures forall i :: 0 <= i < |s.readers| && s.readers[i] == RDone ==> Run(s, steps).readers[i] == RDone
    ensures forall j :: 0 <= j < |s.writers| && s.writers[j] == WDone ==> Run(s, steps).writers[j] == WDone
    decreases |steps|
  {
    if steps != [] {
      if Enabled(s, steps[0]) {
        NextFrame(s, steps[0]);
      }
      RunKeepsDone(if Enabled(s, steps[0]) then Next(s, steps[0]) else s, steps[1..]);
    }
  }


  /** Thread-level safety: no reader reads while a writer writes, and at most one writer writes. */
  ghost predicate Safe(s: System)
  {
    && (forall i, j :: 0 <= i < |s.readers| && 0 <= j < |s.writers| ==> !(s.readers[i] == RRead && s.writers[j] == WWrite))
    && (forall j, k :: 0 <= j < |s.writers| && 0 <= k < |s.writers| && s.writers[j] == WWrite && s.writers[k] == WWrite ==> j == k)
  }

  lemma InvImpliesSafe(s: System)
    requires Inv(s)
    ensures Safe(s)
  {
    Exclusive(s.readers, RRead, s.writers, WWrite);
    AtMostOne(s.writers, WWrite);
  }


  /** Whatever the schedule, every state reached from the start is safe. */
  lemma EveryRunIsSafe(c: Config, steps: seq<Step>)
    ensures Inv(Run(Initial(c), steps))
    ensures Safe(Run(Initial(c), steps))
  {
    InitialInv(c);
    RunPreservesInv(Initial(c), steps);
    InvImpliesSafe(Run(Initial(c), steps));
  }

  /** An active writer is still counted in `writer_count`. */
  lemma WriterCountedWhileWriting(s: System)
    requires Inv(s) && s.g.writing
    ensures s.g.writerCount >= 1
  {
  }

  /** Writer priority: a reader passes the entry test only when no writer is registered. */
  lemma ReaderAdmittedOnlyWithoutWriters(s: System, k: nat, j: nat)
    requires Inv(s) && Enabled(s, ReaderTest(k))
    requires Next(s, ReaderTest(k)).readers[k] == RRead
    requires j < |s.writers|
    ensures s.writers[j] !in {WWait, WRetest, WWrite}
  {
    if s.writers[j] in {WWait, WRetest, WWrite} {
      CountPositive(s.writers, j, s.writers[j]);
    }
  }

  /** A reader's exit that leaves a registered writer able to enter always posts `write_sem`. */
  lemma ReaderExitWakesWriter(s: System, k: nat)
    requires Inv(s) && Enabled(s, ReaderLeave(k))
    requires var s' := Next(s, ReaderLeave(k)); s'.g.writerCount > 0
    ensures Next(s, ReaderLeave(k)).g.writeSem == s.g.writeSem + 1
  {
  }

  /** Running one schedule after another is running their concatenation. */
  lemma {:induction false} RunAppend(s: System, first: seq<Step>, second: seq<Step>)
    ensures Run(s, first + second) == Run(Run(s, first), second)
    decreases |first|
  {
    if first == [] {
      assert first + second == second;
    } else {
      assert (first + second)[1..] == first[1..] + second;
      RunAppend(if Enabled(s, first[0]) then Next(s, first[0]) else s, first[1..], second);
    }
  }

  /** The whole life of writer `k` once it is released, with no other thread in between. */
  function WriterCycle(k: nat): seq<Step>
  {
    [WriterStart(k), WriterRegister(k), WriterLeave(k)]
  }

  /** A writer that starts while nobody reads, writes or is registered runs its
      whole cycle and, finding no other writer registered on release, posts
      `read_sem` `num_readers` times, whether or not any reader is blocked. */
  lemma LoneWriterPostsReadTokens(s: System, k: nat)
    requires k < |s.writers| && s.writers[k] == WStart && s.g.startSem > 0
    requires s.g.writerCount == 0 && s.g.readerCount == 0 && !s.g.writing
    ensures var s' := Run(s, WriterCycle(k));
            && s'.g == s.g.(startSem := s.g.startSem - 1, writesCompleted := s.g.writesCompleted + 1,
                            readSem := s.g.readSem + s.g.numReaders)
            && s'.readers == s.readers && s'.writers == s.writers[k := WDone] && s'.posted == s.posted
  {
    var steps := WriterCycle(k);
    var s1 := Next(s, WriterStart(k));
    var s2 := Next(s1, WriterRegister(k));
    assert s2.writers[k] == WWrite;
    var s3 := Next(s2, WriterLeave(k));
    assert s3.writers == s.writers[k := WDone];
    assert Run(s, steps) == Run(s1, steps[1..]);
    assert Run(s1, steps[1..]) == Run(s2, steps[2..]);
    assert Run(s2, steps[2..]) == Run(s3, []);
  }

  /** Main's first two `sem_post(&start_sem)` calls, with at least two writers. */
  lemma TwoStartPosts(c: Config)
    requires c.numWriters >= 2
    ensures var s := Run(Initial(c), [MainPostStart, MainPostStart]);
            && |s.writers| == c.numWriters && s.writers[0] == WStart && s.writers[1] == WStart
            && s.g.numReaders == c.numReaders && s.g.startSem == 2 && s.g.readSem == 0
            && s.g.writerCount == 0 && s.g.readerCount == 0 && !s.g.writing
  {
    var s0 := Initial(c);
    var s1 := Next(s0, MainPostStart);
    var s2 := Next(s1, MainPostStart);
    assert Run(s0, [MainPostStart, MainPostStart]) == Run(s1, [MainPostStart]);
    assert Run(s1, [MainPostStart]) == Run(s2, []);
  }

  /** `read_sem` tokens pile up. When the first two writers run one after the
      other before any reader, each posts `num_readers` tokens, so `read_sem`
      reaches twice the number of readers: with three readers and two writers,
      6 tokens for five threads. */
  lemma ReadTokensPileUp(c: Config)
    requires c.numWriters >= 2
    ensures Run(Initial(c), [MainPostStart, MainPostStart] + WriterCycle(0) + WriterCycle(1)).g.readSem
            == 2 * c.numReaders
  {
    var opening := [MainPostStart, MainPostStart];
    TwoStartPosts(c);
    var s2 := Run(Initial(c), opening);
    LoneWriterPostsReadTokens(s2, 0);
    var s5 := Run(s2, WriterCycle(0));
    assert s5.writers[1] == WStart;
    LoneWriterPostsReadTokens(s5, 1);
    RunAppend(Initial(c), opening, WriterCycle(0));
    RunAppend(Initial(c), opening + WriterCycle(0), WriterCycle(1));
  }

  /** When every thread has returned, each was counted once and main posted `start_sem` once per thread. */
  lemma AllDoneAccounting(s: System)
    requires Inv(s)
    requires forall i :: 0 <= i < |s.readers| ==> s.readers[i] == RDone
    requires forall j :: 0 <= j < |s.writers| ==> s.writers[j] == WDone
    ensures s.g.readsCompleted == |s.readers| == s.g.numReaders
    ensures s.g.writesCompleted == |s.writers|
    ensures s.posted == |s.readers| + |s.writers| && s.g.startSem == 0
    ensures s.g.readerCount == 0 && s.g.writerCount == 0 && !s.g.writing
  {
    CountUniform(s.readers, RDone);
    CountUniform(s.writers, WDone);
    CountAbsent(s.readers, RStart);
    CountAbsent(s.readers, RRead);
    CountAbsent(s.writers, WStart);
    CountAbsent(s.writers, WWait);
    CountAbsent(s.writers, WRetest);
    CountAbsent(s.writers, WWrite);
  }
}
