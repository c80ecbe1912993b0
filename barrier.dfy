/** src/le_barrier.c: writer priority behind a start barrier.

    Every thread first waits on `t_barrier`, sized to the number of threads,
    then competes under `t_mutex` and one condition variable. Here
    `writer_count` counts only writers that have registered and are still
    waiting: a writer decrements it again when it is admitted. Each section run
    while holding `t_mutex` is one atomic step; a thread blocked on `cond` may
    re-test its guard at any time (POSIX allows spurious wake-ups). */
module Barrier {
  import opened Census
  import opened Launch

  datatype Globals = Globals(
    readerCount: int,     // reader_count
    writerCount: int,     // writer_count: writers waiting for admission
    writing: bool,        // writing (only ever 0 or 1)
    readerFinished: int,  // reader_finished
    writerFinished: int,  // writer_finished
    barrierSize: nat,     // the count t_barrier was initialised with
    arrived: nat)         // threads that have reached t_barrier

  datatype Wakeup = NoWake | BroadcastAll

  /** main sizes the barrier to num_readers + num_writers; the other globals
      are zero (C zero-initialises the ones main does not assign). */
  function InitialGlobals(c: Config): Globals
  {
    Globals(0, 0, false, 0, 0, c.numReaders + c.numWriters, 0)
  }

  /** A thread calls `pthread_barrier_wait`. */
  function Arrived(g: Globals): Globals
  {
    g.(arrived := g.arrived + 1)
  }

  /** Threads blocked in the barrier return once `barrierSize` threads have arrived. */
  predicate BarrierOpen(g: Globals)
  {
    g.arrived >= g.barrierSize
  }

  /** Negation of the reader's `while` condition: nobody writing, no writer waiting. */
  predicate ReaderMayEnter(g: Globals)
  {
    !(g.writing || g.writerCount > 0)
  }

  function ReaderEntered(g: Globals): Globals
  {
    g.(readerCount := g.readerCount + 1)
  }

  function ReaderExited(g: Globals): Globals
  {
    g.(readerFinished := g.readerFinished + 1, readerCount := g.readerCount - 1)
  }

  /** The last reader out broadcasts. */
  function ReaderExitWake(g: Globals): Wakeup
  {
    if ReaderExited(g).readerCount == 0 then BroadcastAll else NoWake
  }

  /** `writer_count++` before the writer's `while` loop. */
  function WriterRegistered(g: Globals): Globals
  {
    g.(writerCount := g.writerCount + 1)
  }

  /** Negation of the writer's `while` condition. */
  predicate WriterMayEnter(g: Globals)
  {
    !(g.writing || g.readerCount > 0)
  }

  /** `writer_count--; writing = 1;` once the writer's loop exits. */
  function WriterEntered(g: Globals): Globals
  {
    g.(writerCount := g.writerCount - 1, writing := true)
  }

  function WriterExited(g: Globals): Globals
  {
    g.(writerFinished := g.writerFinished + 1, writing := false)
  }

  class Shared {
    var readerCount: int
    var writerCount: int
    var writing: bool
    var readerFinished: int
    var writerFinished: int
    var barrierSize: nat
    var arrived: nat

    function Snapshot(): Globals
      reads this
    {
      Globals(readerCount, writerCount, writing, readerFinished, writerFinished, barrierSize, arrived)
    }

    constructor (c: Config)
      ensures Snapshot() == InitialGlobals(c)
    {
      readerCount, writerCount, writing := 0, 0, false;
      readerFinished, writerFinished := 0, 0;
      barrierSize := c.numReaders + c.numWriters;
      arrived := 0;
    }

    method ArriveAtBarrier()
      modifies this
      ensures Snapshot() == Arrived(old(Snapshot()))
    {
      arrived := arrived + 1;
    }

    /** One test of the reader's guard: admit, or change nothing. */
    method TryEnterRead() returns (admitted: bool)
      modifies this
      ensures admitted == ReaderMayEnter(old(Snapshot()))
      ensures Snapshot() == if admitted then ReaderEntered(old(Snapshot())) else old(Snapshot())
    {
      admitted := !(writing || writerCount > 0);
      if admitted {
        readerCount := readerCount + 1;
      }
    }

    method ExitRead() returns (wake: Wakeup)
      modifies this
      ensures wake == ReaderExitWake(old(Snapshot()))
      ensures Snapshot() == ReaderExited(old(Snapshot()))
    {
      readerFinished := readerFinished + 1;
      readerCount := readerCount - 1;
      wake := if readerCount == 0 then BroadcastAll else NoWake;
    }

    method RegisterWriter()
      modifies this
      ensures Snapshot() == WriterRegistered(old(Snapshot()))
    {
      writerCount := writerCount + 1;
    }

    /** One test of a registered writer's guard: on success leave the waiting count and start writing. */
    method TryEnterWrite() returns (admitted: bool)
      modifies this
      ensures admitted == WriterMayEnter(old(Snapshot()))
      ensures Snapshot() == if admitted then WriterEntered(old(Snapshot())) else old(Snapshot())
    {
      admitted := !(writing || readerCount > 0);
      if admitted {
        writerCount := writerCount - 1;
        writing := true;
      }
    }

    method ExitWrite() returns (wake: Wakeup)
      modifies this
      ensures wake == BroadcastAll
      ensures Snapshot() == WriterExited(old(Snapshot()))
    {
      writerFinished := writerFinished + 1;
      writing := false;
      wake := BroadcastAll;
    }
  }

  // ---------------------------------------------------------------------
  // The whole program as a transition system.

  datatype ReaderPc =
    | RBefore   // created, not yet at the barrier
    | RBarrier  // blocked in pthread_barrier_wait
    | RTest     // past the barrier: testing or blocked on its guard
    | RRead
    | RDone

  datatype WriterPc =
    | WBefore
    | WBarrier
    | WRegister  // past the barrier, about to register
    | WWait      // registered: testing or blocked on its guard
    | WWrite
    | WDone

  datatype System = System(g: Globals, readers: seq<ReaderPc>, writers: seq<WriterPc>)

  datatype Step =
    | ReaderArrive(k: nat) | ReaderPass(k: nat) | ReaderTry(k: nat) | ReaderLeave(k: nat)
    | WriterArrive(k: nat) | WriterPass(k: nat) | WriterRegister(k: nat) | WriterRetry(k: nat) | WriterLeave(k: nat)

  /** Threads may run as soon as they are created; taking them all as created
      from the start only adds schedules. */
  function Initial(c: Config): System
  {
    System(InitialGlobals(c), seq(c.numReaders, _ => RBefore), seq(c.numWriters, _ => WBefore))
  }

  predicate Enabled(s: System, step: Step)
  {
    match step
    case ReaderArrive(k) => k < |s.readers| && s.readers[k] == RBefore
    case ReaderPass(k) => k < |s.readers| && s.readers[k] == RBarrier && BarrierOpen(s.g)
    case ReaderTry(k) => k < |s.readers| && s.readers[k] == RTest
    case ReaderLeave(k) => k < |s.readers| && s.readers[k] == RRead
    case WriterArrive(k) => k < |s.writers| && s.writers[k] == WBefore
    case WriterPass(k) => k < |s.writers| && s.writers[k] == WBarrier && BarrierOpen(s.g)
    case WriterRegister(k) => k < |s.writers| && s.writers[k] == WRegister
    case WriterRetry(k) => k < |s.writers| && s.writers[k] == WWait
    case WriterLeave(k) => k < |s.writers| && s.writers[k] == WWrite
  }

  /** Steps taken by the reader with id `step.k`. */
  predicate IsReaderStep(step: Step)
  {
    step.ReaderArrive? || step.ReaderPass? || step.ReaderTry? || step.ReaderLeave?
  }

  /** Steps taken by the writer with id `step.k`. */
  predicate IsWriterStep(step: Step)
  {
    step.WriterArrive? || step.WriterPass? || step.WriterRegister? || step.WriterRetry? || step.WriterLeave?
  }

  /** One atomic step: no thread is added or lost, and no completion is undone. */
  function Next(s: System, step: Step): (s': System)
    requires Enabled(s, step)
    ensures |s'.readers| == |s.readers| && |s'.writers| == |s.writers|
    ensures s'.g.readerFinished >= s.g.readerFinished && s'.g.writerFinished >= s.g.writerFinished
  {
    match step
    case ReaderArrive(k) => s.(g := Arrived(s.g), readers := s.readers[k := RBarrier])
    case ReaderPass(k) => s.(readers := s.readers[k := RTest])
    case ReaderTry(k) =>
      if ReaderMayEnter(s.g) then s.(g := ReaderEntered(s.g), readers := s.readers[k := RRead]) else s
    case ReaderLeave(k) => s.(g := ReaderExited(s.g), readers := s.readers[k := RDone])
    case WriterArrive(k) => s.(g := Arrived(s.g), writers := s.writers[k := WBarrier])
    case WriterPass(k) => s.(writers := s.writers[k := WRegister])
    case WriterRegister(k) =>
      var g1 := WriterRegistered(s.g);
      if WriterMayEnter(g1) then s.(g := WriterEntered(g1), writers := s.writers[k := WWrite])
      else s.(g := g1, writers := s.writers[k := WWait])
    case WriterRetry(k) =>
      if WriterMayEnter(s.g) then s.(g := WriterEntered(s.g), writers := s.writers[k := WWrite]) else s
    case WriterLeave(k) => s.(g := WriterExited(s.g), writers := s.writers[k := WDone])
  }

  function Run(s: System, steps: seq<Step>): System
    decreases |steps|
  {
    if steps == [] then s
    else Run(if Enabled(s, steps[0]) then Next(s, steps[0]) else s, steps[1..])
  }

  /** Threads that have not yet reached the barrier. */
  function NotArrived(s: System): nat
  {
    Count(s.readers, RBefore) + Count(s.writers, WBefore)
  }

  ghost predicate Inv(s: System)
  {
    && s.g.readerCount == Count(s.readers, RRead)
    && s.g.writerCount == Count(s.writers, WWait)
    && Count(s.writers, WWrite) == (if s.g.writing then 1 else 0)
    && s.g.readerFinished == Count(s.readers, RDone)
    && s.g.writerFinished == Count(s.writers, WDone)
    && (s.g.writing ==> s.g.readerCount == 0)
    // the barrier counts arrivals, and nobody is past it before all have arrived
    && s.g.barrierSize == |s.readers| + |s.writers|
    && s.g.arrived + NotArrived(s) == s.g.barrierSize
    && (!BarrierOpen(s.g) ==>
          && (forall i :: 0 <= i < |s.readers| ==> s.readers[i] in {RBefore, RBarrier})
          && (forall j :: 0 <= j < |s.writers| ==> s.writers[j] in {WBefore, WBarrier}))
  }

  lemma InitialInv(c: Config)
    ensures Inv(Initial(c))
  {
    var s := Initial(c);
    CountUniform(s.readers, RBefore);
    CountUniform(s.writers, WBefore);
    CountAbsent(s.readers, RRead);
    CountAbsent(s.readers, RDone);
    CountAbsent(s.writers, WWait);
    CountAbsent(s.writers, WWrite);
    CountAbsent(s.writers, WDone);
    assert forall i :: 0 <= i < |s.readers| ==> s.readers[i] == RBefore;
    assert forall j :: 0 <= j < |s.writers| ==> s.writers[j] == WBefore;
  }

  lemma NextInv(s: System, step: Step)
    requires Inv(s) && Enabled(s, step)
    ensures Inv(Next(s, step))
  {
    match step
    case ReaderArrive(k) => ArriveInv(s, step);
    case WriterArrive(k) => ArriveInv(s, step);
    case ReaderPass(k) => PassInv(s, step);
    case WriterPass(k) => PassInv(s, step);
    case ReaderTry(k) => ReaderAccessInv(s, step);
    case ReaderLeave(k) => ReaderAccessInv(s, step);
    case WriterRegister(k) => WriterEntryInv(s, step);
    case WriterRetry(k) => WriterEntryInv(s, step);
    case WriterLeave(k) => WriterLeaveInv(s, k);
  }

  /** A thread that is past the barrier can only be there once the barrier has opened. */
  lemma PastBarrierOpen(s: System, step: Step)
    requires Inv(s) && Enabled(s, step)
    requires step.ReaderTry? || step.ReaderLeave? || step.WriterRegister? || step.WriterRetry? || step.WriterLeave?
    ensures BarrierOpen(s.g)
  {
    if step.ReaderTry? || step.ReaderLeave? {
      assert s.readers[step.k] !in {RBefore, RBarrier};
    } else {
      assert s.writers[step.k] !in {WBefore, WBarrier};
    }
  }

  lemma ArriveInv(s: System, step: Step)
    requires Inv(s) && Enabled(s, step)
    requires step.ReaderArrive? || step.WriterArrive?
    ensures Inv(Next(s, step))
  {
    var s' := Next(s, step);
    if step.ReaderArrive? {
      CountAfterUpdate(s.readers, step.k, RBarrier);
      CountPositive(s.readers, step.k, RBefore);
    } else {
      CountAfterUpdate(s.writers, step.k, WBarrier);
      CountPositive(s.writers, step.k, WBefore);
    }
    assert s'.g.arrived + NotArrived(s') == s'.g.barrierSize;
    if !BarrierOpen(s'.g) {
      assert !BarrierOpen(s.g);
      assert forall i :: 0 <= i < |s'.readers| ==> s'.readers[i] in {RBefore, RBarrier};
      assert forall j :: 0 <= j < |s'.writers| ==> s'.writers[j] in {WBefore, WBarrier};
    }
  }

  lemma PassInv(s: System, step: Step)
    requires Inv(s) && Enabled(s, step)
    requires step.ReaderPass? || step.WriterPass?
    ensures Inv(Next(s, step))
  {
    if step.ReaderPass? {
      CountAfterUpdate(s.readers, step.k, RTest);
    } else {
      CountAfterUpdate(s.writers, step.k, WRegister);
    }
  }

  lemma ReaderAccessInv(s: System, step: Step)
    requires Inv(s) && Enabled(s, step)
    requires step.ReaderTry? || step.ReaderLeave?
    ensures Inv(Next(s, step))
  {
    PastBarrierOpen(s, step);
    if step.ReaderLeave? {
      CountAfterUpdate(s.readers, step.k, RDone);
      CountPositive(s.readers, step.k, RRead);
    } else if ReaderMayEnter(s.g) {
      CountAfterUpdate(s.readers, step.k, RRead);
    }
  }

  lemma WriterEntryInv(s: System, step: Step)
    requires Inv(s) && Enabled(s, step)
    requires step.WriterRegister? || step.WriterRetry?
    ensures Inv(Next(s, step))
  {
    PastBarrierOpen(s, step);
    var k := step.k;
    var g1 := if step.WriterRegister? then WriterRegistered(s.g) else s.g;
    if WriterMayEnter(g1) {
      CountAfterUpdate(s.writers, k, WWrite);
      if step.WriterRetry? {
        CountPositive(s.writers, k, WWait);
      }
    } else if step.WriterRegister? {
      CountAfterUpdate(s.writers, k, WWait);
    }
  }

  lemma WriterLeaveInv(s: System, k: nat)
    requires Inv(s) && Enabled(s, WriterLeave(k))
    ensures Inv(Next(s, WriterLeave(k)))
  {
    PastBarrierOpen(s, WriterLeave(k));
    CountAfterUpdate(s.writers, k, WDone);
  }

  lemma {:induction false} RunPreservesInv(s: System, steps: seq<Step>)
    requires Inv(s)
    ensures Inv(Run(s, steps))
    decreases |steps|
  {
    if steps != [] {
      if Enabled(s, steps[0]) {
        NextInv(s, steps[0]);
      }
      RunPreservesInv(if Enabled(s, steps[0]) then Next(s, steps[0]) else s, steps[1..]);
    }
  }
  /** A step moves only the thread taking it, and a returned thread stays returned. */
  lemma NextFrame(s: System, step: Step)
    requires Enabled(s, step)
    ensures forall i :: 0 <= i < |s.readers| && !(IsReaderStep(step) && step.k == i) ==> Next(s, step).readers[i] == s.readers[i]
    ensures forall j :: 0 <= j < |s.writers| && !(IsWriterStep(step) && step.k == j) ==> Next(s, step).writers[j] == s.writers[j]
    ensures forall i :: 0 <= i < |s.readers| && s.readers[i] == RDone ==> Next(s, step).readers[i] == RDone
    ensures forall j :: 0 <= j < |s.writers| && s.writers[j] == WDone ==> Next(s, step).writers[j] == WDone
  {
  }

  /** Over any schedule completions are never undone: both completion counters
      only grow, and a thread that has returned stays returned. */
  lemma {:induction false} RunKeepsDone(s: System, steps: seq<Step>)
    ensures |Run(s, steps).readers| == |s.readers| && |Run(s, steps).writers| == |s.writers|
    ensures Run(s, steps).g.readerFinished >= s.g.readerFinished && Run(s, steps).g.writerFinished >= s.g.writerFinished
    ensures forall i :: 0 <= i < |s.readers| && s.readers[i] == RDone ==> Run(s, steps).readers[i] == RDone
    ensures forall j :: 0 <= j < |s.writers| && s.writers[j] == WDone ==> Run(s, steps).writers[j] == WDone
    decreases |steps|
  {
    if steps != [] {
      if Enabled(s, steps[0]) {
        NextFrame(s, steps[0]);
      }
      RunKeepsDone(if Enabled(s, steps[0]) then Next(s, steps[0]) else s, steps[1..]);
    }
  }


  ghost predicate Safe(s: System)
  {
    && (forall i, j :: 0 <= i < |s.readers| && 0 <= j < |s.writers| ==> !(s.readers[i] == RRead && s.writers[j] == WWrite))
    && (forall j, k :: 0 <= j < |s.writers| && 0 <= k < |s.writers| && s.writers[j] == WWrite && s.writers[k] == WWrite ==> j == k)
  }

  lemma InvImpliesSafe(s: System)
    requires Inv(s)
    ensures Safe(s)
  {
    Exclusive(s.readers, RRead, s.writers, WWrite);
    AtMostOne(s.writers, WWrite);
  }


  lemma EveryRunIsSafe(c: Config, steps: seq<Step>)
    ensures Inv(Run(Initial(c), steps))
    ensures Safe(Run(Initial(c), steps))
  {
    InitialInv(c);
    RunPreservesInv(Initial(c), steps);
    InvImpliesSafe(Run(Initial(c), steps));
  }

  /** Once any participant is past the barrier, every participant has reached it. */
  lemma PastBarrierMeansAllArrived(s: System, role: Role, k: nat)
    requires Inv(s)
    requires role == Reader ==> k < |s.readers| && s.readers[k] !in {RBefore, RBarrier}
    requires role == Writer ==> k < |s.writers| && s.writers[k] !in {WBefore, WBarrier}
    ensures s.g.arrived == |s.readers| + |s.writers|
    ensures forall i :: 0 <= i < |s.readers| ==> s.readers[i] != RBefore
    ensures forall j :: 0 <= j < |s.writers| ==> s.writers[j] != WBefore
  {
    forall i | 0 <= i < |s.readers| ensures s.readers[i] != RBefore {
      if s.readers[i] == RBefore {
        CountPositive(s.readers, i, RBefore);
      }
    }
    forall j | 0 <= j < |s.writers| ensures s.writers[j] != WBefore {
      if s.writers[j] == WBefore {
        CountPositive(s.writers, j, WBefore);
      }
    }
  }

  /** Writer priority: a reader is admitted only when no writer is waiting. */
  lemma ReaderAdmittedOnlyWithoutWaitingWriters(s: System, k: nat, j: nat)
    requires Inv(s) && Enabled(s, ReaderTry(k))
    requires Next(s, ReaderTry(k)).readers[k] == RRead
    requires j < |s.writers|
    ensures s.writers[j] != WWait
  {
    if s.writers[j] == WWait {
      CountPositive(s.writers, j, WWait);
    }
  }

  /** `writer_count` never includes the writer that is writing. */
  lemma ActiveWriterNotCounted(s: System, j: nat)
    requires Inv(s) && j < |s.writers| && s.writers[j] == WWrite
    ensures s.g.writing
    ensures s.g.writerCount == Count(s.writers, WWait) <= |s.writers| - 1
  {
    CountPositive(s.writers, j, WWrite);
    CountAfterUpdate(s.writers, j, WWait);
    assert Count(s.writers[j := WWait], WWait) <= |s.writers|;
  }

  /** The last reader's broadcast is sent exactly when a writer's guard has become true. */
  lemma ReaderExitWakesWriters(s: System, k: nat)
    requires Inv(s) && Enabled(s, ReaderLeave(k))
    ensures ReaderExitWake(s.g) == BroadcastAll <==> WriterMayEnter(Next(s, ReaderLeave(k)).g)
  {
    CountPositive(s.readers, k, RRead);
  }

  /** After a writer's release every waiting writer's guard holds, and a
      reader's guard holds exactly when no writer is waiting. */
  lemma WriterExitOpensGuards(s: System, k: nat)
    requires Inv(s) && Enabled(s, WriterLeave(k))
    ensures WriterMayEnter(Next(s, WriterLeave(k)).g)
    ensures ReaderMayEnter(Next(s, WriterLeave(k)).g) <==> Count(s.writers, WWait) == 0
  {
    CountPositive(s.writers, k, WWrite);
  }

  lemma AllDoneAccounting(s: System)
    requires Inv(s)
    requires forall i :: 0 <= i < |s.readers| ==> s.readers[i] == RDone
    requires forall j :: 0 <= j < |s.writers| ==> s.writers[j] == WDone
    ensures s.g.readerFinished == |s.readers| && s.g.writerFinished == |s.writers|
    ensures s.g.readerCount == 0 && s.g.writerCount == 0 && !s.g.writing
  {
    CountUniform(s.readers, RDone);
    CountUniform(s.writers, WDone);
    CountAbsent(s.readers, RRead);
    CountAbsent(s.writers, WWait);
    CountAbsent(s.writers, WWrite);
  }
}
