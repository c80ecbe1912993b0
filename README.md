# Reader-writer benchmarks, modelled in Dafny

The repository holds four C programs that each run the reader-writer problem
with `num_readers` reader threads and `num_writers` writer threads. They differ
in how a thread gets access to the shared data:

- `src/le_semaphore.c` gives writers priority. It uses four POSIX semaphores:
  a binary `mutex`, plus `start_sem`, `read_sem` and `write_sem`.
- `src/le_mutex_cond.c` gives readers priority. It uses one mutex, one
  condition variable and a `finished` flag. Threads wait on that flag until
  `main` has created all of them.
- `src/le_busy_wait.c` gives no priority. Threads poll under a mutex until
  their guard holds.
- `src/le_barrier.c` gives writers priority, in the style of the condition
  variable program. Every thread first waits at a barrier sized to the number
  of threads.

All four `main`s first reject counts that are not positive. They then create
the threads in a random order of roles. Reader ids run from 0 to
`num_readers - 1` and writer ids from 0 to `num_writers - 1`.

The project has one module per C program, plus two shared modules:

- `Launch` (`launch.dfy`) covers the shared part of `main`: the count check,
  and the loop that chooses each thread's role and id.
- `Census` (`census.dfy`) defines `Count`, the number of threads in a given
  phase.
- `Semaphore`, `MutexCond`, `BusyWait` and `Barrier` each model one program at
  three levels:
  - **Critical sections as functions.** A `Globals` datatype holds the
    program's shared globals. For the semaphore program it also holds the
    values of the counting semaphores; for the barrier program, the barrier's
    size and how many threads have arrived. Each section a thread runs while
    holding the lock is a pure function on `Globals`: a guard predicate, an
    update, and for condition variables the wake-up decision the section makes
    (none, `signal` or `broadcast`).
  - **The globals as an object.** A `class Shared` has one field per global
    and one method per update or guard test. Some methods are finer than one
    mutex hold:
    - a writer's registration and first test (`le_semaphore.c:67-76`,
      `le_barrier.c:57-65`) are `RegisterWriter` followed by `TryEnterWrite`;
    - in `le_mutex_cond.c:31-41` the gate test and the reader's first test are
      `PassGate` followed by `TryEnterRead`;
    - `WaitStart`, `WaitReadSem` and `WaitWriteSem` are the `sem_wait` calls on
      the counting semaphores, not critical sections.
    The transition system below joins them again: no step splits a mutex
    hold, each mutex hold is exactly one step, and every other step is one
    semaphore wait or post, one barrier arrival or pass, one thread creation
    or one other action of main. Loops stay loops: main's `start_sem` posts, and the
    writer's `read_sem` posts in the semaphore program. Each method's contract
    ties the new state to the function above through `Snapshot()`.
  - **The whole program as a transition system.** `System` holds the globals
    and a program counter for every reader and every writer, indexed by id.
    `Step` names an atomic step of one thread or of `main`, `Next` applies it,
    and `Run` applies any sequence of steps; a step that is not enabled is
    skipped. `Inv` ties each counter to the number of threads in the matching
    phase. `EveryRunIsSafe` proves that every state any schedule reaches
    satisfies `Safe`: no reader reads while a writer writes, and at most one
    writer writes at a time.

Waiting on a condition variable is modelled loosely. A waiting thread may
re-test its guard at any moment, as POSIX's spurious wake-ups allow, so the
safety proofs do not depend on who is woken. Separate lemmas relate each
signal or broadcast to the guards it makes true. Semaphores are modelled
exactly, as token counts. In the semaphore program this lets the invariant
also state that no wake-up is lost:

- once readers may enter, every reader blocked on `read_sem` has a token;
- a registered writer that is blocked, while no reader reads and no writer
  writes, has a `write_sem` token or another writer about to re-test.

The role loop treats `rand()` as an oracle. `coins[n]` stands for the n-th
evaluation of `rand() % 2 == 0`, and true picks a reader. As with C's `&&`
and `||`, a coin is used only while both roles still have threads to create.
`Launch.AssignRoles` is proved to create exactly `num_readers` readers with ids
`0..num_readers-1` in order, and likewise for writers, whatever the coins. It
is also proved that the loop's last `else` branch, which would report an error
and retry the slot, is unreachable. The four programs share the same
validation and role-selection logic. Only the malloc-failure cleanup and the
text of the error message differ, and both are left out. The table cites
`src/le_semaphore.c` for them; the same logic is in:

| program | validation | role loop |
|---|---|---|
| `src/le_mutex_cond.c` | 106-111 | 152-176 |
| `src/le_busy_wait.c` | 89-94 | 126-150 |
| `src/le_barrier.c` | 88-93 | 130-154 |

The two writer-priority programs keep `writer_count` differently, and the
model follows each one's code:

- In `src/le_semaphore.c` a writer stays in `writer_count` from its
  registration (:69) until its release (:84). A releasing reader posts
  `write_sem` when `reader_count == 0 || writer_count > 0` (:54). A releasing
  writer posts `write_sem` once if writers remain, and otherwise posts
  `read_sem` `num_readers` times (:87-92).
- In `src/le_barrier.c` a writer leaves `writer_count` as soon as it is
  admitted (:58, :63), so `writer_count` counts only waiting writers. A
  releasing reader broadcasts when `reader_count` reaches 0 (:43-44), and a
  releasing writer always broadcasts (:75).

In `src/le_mutex_cond.c` the last reader's `pthread_cond_signal` (:53-54) goes
to a condition variable on which readers also wait, both at the `finished`
gate (:33-34) and while a writer writes (:37-38). So the signal may wake a
reader rather than a writer. `MutexCond.ReaderExitSignalsWriters` states what
the code does guarantee: the signal is sent exactly when a writer's guard has
become true.

## Model

| member | source | states |
|---|---|---|
| Launch.ValidateCounts | src/le_semaphore.c:111-116 | The run is accepted if and only if both counts are positive, and an accepted configuration carries exactly the parsed counts. |
| Launch.AssignRoles | src/le_semaphore.c:164-197 | For any coins, the loop creates `num_readers + num_writers` threads. The readers get ids 0..num_readers-1 in creation order, and likewise the writers. The result is the order `Deal` prescribes for those coins, and the error branch is never reached. |
| Launch.Deal | src/le_semaphore.c:184-196 | The threads the loop still creates from a given point are exactly as many as the slots left in both quotas. |
| Launch.DealMeetsQuotas | src/le_semaphore.c:184-196 | From any point in the loop, the threads still to create fill exactly the remaining quotas. The ids continue from the current counts in increasing order, whatever the coins. |
| Semaphore.Shared.constructor | src/le_semaphore.c:111-162 | Every counter starts at 0, `writing` is clear, and `start_sem`, `read_sem` and `write_sem` start at 0. |
| Semaphore.Shared.PostStartAll | src/le_semaphore.c:199-202 | Main's loop raises `start_sem` by the number of threads and changes nothing else. |
| Semaphore.Shared.WaitStart | src/le_semaphore.c:32 | A thread passes `sem_wait(&start_sem)` only with a token, and uses that token. |
| Semaphore.Shared.TryEnterRead | src/le_semaphore.c:37-44 | A reader is admitted exactly when no writer is registered and none is writing. Admission adds one to `reader_count`; a refused test changes nothing. |
| Semaphore.Shared.WaitReadSem | src/le_semaphore.c:40 | A blocked reader proceeds only with a `read_sem` token, and uses it. |
| Semaphore.Shared.ExitRead | src/le_semaphore.c:51-57 | The reader is counted as done and leaves `reader_count`. `write_sem` is posted exactly when no reader is left or a writer is registered. |
| Semaphore.Shared.RegisterWriter | src/le_semaphore.c:67-69 | The writer adds itself to `writer_count` before its first test. |
| Semaphore.Shared.TryEnterWrite | src/le_semaphore.c:70-76 | A writer starts writing exactly when no reader reads and no writer writes; a refused test changes nothing. |
| Semaphore.Shared.WaitWriteSem | src/le_semaphore.c:72 | A blocked writer proceeds only with a `write_sem` token, and uses it. |
| Semaphore.Shared.ExitWrite | src/le_semaphore.c:83-94 | The writer leaves `writer_count`, is counted as done and clears `writing`. If writers remain it posts `write_sem` once, otherwise it posts `read_sem` `num_readers` times. |
| Semaphore.InitialInv | src/le_semaphore.c:157-202 | The invariant holds when every thread has been created and is blocked on `start_sem`. |
| Semaphore.NextInv | src/le_semaphore.c:31-97 | Every atomic step of main, a reader or a writer preserves the invariant, including the two no-lost-wake-up clauses. |
| Semaphore.ReaderStepInv | src/le_semaphore.c:31-59 | Each reader step (start, test, wake on `read_sem`, release) preserves the invariant. |
| Semaphore.ReaderStartInv | src/le_semaphore.c:32 | A reader passing `sem_wait(&start_sem)` uses up one posted start token and preserves the invariant. |
| Semaphore.ReaderTestInv | src/le_semaphore.c:37-44 | The guard test preserves the invariant: the reader is either admitted and counted in `reader_count`, or blocked on `read_sem` with the no-lost-wake-up clause kept. |
| Semaphore.ReaderWakeInv | src/le_semaphore.c:40-41 | A reader taking a `read_sem` token and going back to the test preserves the invariant. |
| Semaphore.ReaderLeaveInv | src/le_semaphore.c:51-57 | The reader's release preserves the invariant, whether or not it posts `write_sem`. |
| Semaphore.WriterStartInv | src/le_semaphore.c:62 | A writer passing `sem_wait(&start_sem)` uses up one posted start token and preserves the invariant. |
| Semaphore.WriterWakeInv | src/le_semaphore.c:72-73 | A writer taking a `write_sem` token and going back to the test preserves the invariant. |
| Semaphore.WriterStepInv | src/le_semaphore.c:61-97 | Each writer step preserves the invariant. |
| Semaphore.WriterRegisterInv | src/le_semaphore.c:67-76 | Registering and testing at once, with the writer either admitted or blocked on `write_sem`, preserves the invariant. |
| Semaphore.WriterRetestInv | src/le_semaphore.c:70-75 | A woken writer's re-test preserves the invariant. |
| Semaphore.WriterLeaveInv | src/le_semaphore.c:83-94 | The writer's release preserves the invariant. Its posts leave a token for every blocked reader, or for a blocked writer. |
| Semaphore.RunPreservesInv | src/le_semaphore.c:31-97 | Every schedule of steps preserves the invariant. |
| Semaphore.Next | src/le_semaphore.c:31-97 | A step adds or loses no thread, and neither completion counter goes down. |
| Semaphore.NextFrame | src/le_semaphore.c:31-97 | A step moves only the thread taking it: every other thread keeps its place, and a returned thread stays returned. |
| Semaphore.RunKeepsDone | src/le_semaphore.c:51-94 | Over any schedule, `t_reads_completed` and `t_writes_completed` never decrease, and a thread that has returned stays returned. |
| Semaphore.InvImpliesSafe | src/le_semaphore.c:37-86 | The invariant implies that no reader reads while a writer writes, and that at most one writer writes. |
| Semaphore.EveryRunIsSafe | src/le_semaphore.c:31-202 | Every state that any schedule reaches from the start satisfies the invariant and is safe. |
| Semaphore.WriterCountedWhileWriting | src/le_semaphore.c:69-86 | A writer that is writing is still counted in `writer_count`. |
| Semaphore.ReaderAdmittedOnlyWithoutWriters | src/le_semaphore.c:38-43 | Writer priority: a reader is admitted only when no writer is registered, waiting, re-testing or writing. |
| Semaphore.ReaderExitWakesWriter | src/le_semaphore.c:52-56 | A reader's release posts `write_sem` whenever a writer is still registered. |
| Semaphore.LoneWriterPostsReadTokens | src/le_semaphore.c:83-93 | A writer that runs its whole cycle while no other thread is registered or active posts `read_sem` `num_readers` times, whether or not a reader is blocked. It also uses one `start_sem` token and counts one write. |
| Semaphore.TwoStartPosts | src/le_semaphore.c:200-202 | With at least two writers, main's first two `sem_post(&start_sem)` calls leave two start tokens, writers 0 and 1 still waiting on `start_sem`, no thread registered, reading or writing, and `read_sem` at 0. |
| Semaphore.ReadTokensPileUp | src/le_semaphore.c:89-92 | With at least two writers, take the schedule in which main posts `start_sem` twice and writers 0 and 1 then each run their whole cycle before any reader moves. It leaves `read_sem` at `2 * num_readers`. With three readers and two writers that is 6 tokens for five threads. |
| Semaphore.AllDoneAccounting | src/le_semaphore.c:52-86 | When every thread has returned, each read and each write was counted exactly once, and main posted `start_sem` once per thread with every token used. All counters are back at 0. |
| MutexCond.Shared.constructor | src/le_mutex_cond.c:127-145 | Counters start at 0, and `writing` and `finished` start clear. |
| MutexCond.Shared.Open | src/le_mutex_cond.c:178-182 | Main sets `finished` and broadcasts to every waiter. |
| MutexCond.Shared.PassGate | src/le_mutex_cond.c:33-35 | A thread passes the gate exactly when `finished` is set, and the test changes nothing. |
| MutexCond.Shared.TryEnterRead | src/le_mutex_cond.c:37-41 | A reader is admitted exactly when nobody writes, whatever writers wait. A refused test changes nothing. |
| MutexCond.Shared.ExitRead | src/le_mutex_cond.c:49-57 | The reader is counted as done and leaves `reader_count`. It signals exactly when no reader is left. |
| MutexCond.Shared.TryEnterWrite | src/le_mutex_cond.c:72-76 | A writer starts writing exactly when nobody reads or writes; a refused test changes nothing. |
| MutexCond.Shared.ExitWrite | src/le_mutex_cond.c:83-89 | The writer is counted as done, clears `writing` and always broadcasts. |
| MutexCond.InitialInv | src/le_mutex_cond.c:127-149 | The invariant holds before the creation loop, when no thread exists and `finished` is clear. |
| MutexCond.NextInv | src/le_mutex_cond.c:27-92 | Every step preserves the invariant: thread creation, main raising the flag, each gate, guard test and release. |
| MutexCond.ReaderEntryInv | src/le_mutex_cond.c:31-41 | A reader's gate pass and guard test, done while holding the mutex, preserve the invariant. |
| MutexCond.WriterEntryInv | src/le_mutex_cond.c:66-76 | A writer's gate pass and guard test preserve the invariant. |
| MutexCond.CreateInv | src/le_mutex_cond.c:163-170 | Creating a reader or a writer thread, which starts before the gate, preserves the invariant. |
| MutexCond.ReaderLeaveInv | src/le_mutex_cond.c:49-57 | The reader's release preserves the invariant, whether or not it signals. |
| MutexCond.WriterLeaveInv | src/le_mutex_cond.c:83-89 | The writer's release preserves the invariant. |
| MutexCond.RunPreservesInv | src/le_mutex_cond.c:27-92 | Every schedule of steps preserves the invariant. |
| MutexCond.Next | src/le_mutex_cond.c:27-92 | A step adds or loses no thread, and neither completion counter goes down. |
| MutexCond.NextFrame | src/le_mutex_cond.c:27-92 | A step moves only the thread it creates or runs: every other thread keeps its place, and a returned thread stays returned. |
| MutexCond.RunKeepsDone | src/le_mutex_cond.c:49-89 | Over any schedule, `t_reads_completed` and `t_writes_completed` never decrease, and a thread that has returned stays returned. |
| MutexCond.InvImpliesSafe | src/le_mutex_cond.c:37-86 | The invariant implies that no reader reads while a writer writes, and that at most one writer writes. |
| MutexCond.EveryRunIsSafe | src/le_mutex_cond.c:27-182 | Every state that any schedule reaches from the start satisfies the invariant and is safe. |
| MutexCond.NothingHappensBeforeGo | src/le_mutex_cond.c:33-35 | Until main sets `finished`, nobody reads or writes and nothing has completed. |
| MutexCond.ActiveReadersLetReadersIn | src/le_mutex_cond.c:37-40 | Reader priority: while a reader reads, any reader that tests its guard is admitted, however many writers wait. |
| MutexCond.ReaderExitSignalsWriters | src/le_mutex_cond.c:51-55 | The last reader signals exactly when a writer's guard has become true. |
| MutexCond.WriterExitOpensEveryGuard | src/le_mutex_cond.c:83-88 | After a writer's release, the guards of every waiting reader and writer hold. |
| MutexCond.AllDoneAccounting | src/le_mutex_cond.c:49-89 | When every thread has returned, each read and each write was counted exactly once, and nobody reads or writes. |
| BusyWait.PollEffects | src/le_busy_wait.c:28-63 | A failed poll changes nothing. A successful reader poll only raises `reader_count`. A successful writer poll only sets `writing`, and happens only when a reader poll would also succeed. |
| BusyWait.Shared.constructor | src/le_busy_wait.c:102-106 | Counters start at 0 and `writing` starts clear. |
| BusyWait.Shared.PollRead | src/le_busy_wait.c:28-36 | One iteration of the reader's loop is the reader poll. |
| BusyWait.Shared.ExitRead | src/le_busy_wait.c:42-46 | The reader leaves `reader_count` and is counted as done. |
| BusyWait.Shared.PollWrite | src/le_busy_wait.c:55-63 | One iteration of the writer's loop is the writer poll. |
| BusyWait.Shared.ExitWrite | src/le_busy_wait.c:69-72 | The writer is counted as done and clears `writing`. |
| BusyWait.InitialInv | src/le_busy_wait.c:102-106 | The invariant holds with every counter at 0. |
| BusyWait.NextInv | src/le_busy_wait.c:24-75 | Every poll and release preserves the invariant. |
| BusyWait.RunPreservesInv | src/le_busy_wait.c:24-75 | Every schedule of steps preserves the invariant. |
| BusyWait.Next | src/le_busy_wait.c:24-75 | A poll or release adds or loses no thread, and neither completion counter goes down. |
| BusyWait.NextFrame | src/le_busy_wait.c:24-75 | A poll or release moves only the thread taking it: every other thread keeps its place, and a returned thread stays returned. |
| BusyWait.RunKeepsDone | src/le_busy_wait.c:42-72 | Over any schedule, `t_reads_completed` and `t_writes_completed` never decrease, and a thread that has returned stays returned. |
| BusyWait.InvImpliesSafe | src/le_busy_wait.c:28-63 | The invariant implies that no reader reads while a writer writes, and that at most one writer writes. |
| BusyWait.EveryRunIsSafe | src/le_busy_wait.c:24-150 | Every state that any schedule reaches from the start satisfies the invariant and is safe. |
| BusyWait.ReaderLeaveCountsOnce | src/le_busy_wait.c:42-46 | A reader's release adds exactly one completed read, and `reader_count` stays non-negative. |
| BusyWait.AllDoneAccounting | src/le_busy_wait.c:42-72 | When every thread has returned, each read and each write was counted exactly once, and nobody reads or writes. |
| Barrier.Shared.constructor | src/le_barrier.c:98-125 | The barrier is sized to `num_readers + num_writers` with no thread arrived. Every counter starts at 0 and `writing` starts clear. |
| Barrier.Shared.ArriveAtBarrier | src/le_barrier.c:26 | A thread's arrival at the barrier adds one to the arrivals and changes nothing else. |
| Barrier.Shared.TryEnterRead | src/le_barrier.c:28-34 | A reader is admitted exactly when nobody writes and no writer waits. A refused test changes nothing. |
| Barrier.Shared.ExitRead | src/le_barrier.c:40-46 | The reader is counted as done and leaves `reader_count`. It broadcasts exactly when no reader is left. |
| Barrier.Shared.RegisterWriter | src/le_barrier.c:57-58 | The writer adds itself to `writer_count` before its first test. |
| Barrier.Shared.TryEnterWrite | src/le_barrier.c:60-65 | A writer is admitted exactly when nobody reads or writes. Admission takes it out of `writer_count` and sets `writing`; a refused test changes nothing. |
| Barrier.Shared.ExitWrite | src/le_barrier.c:72-76 | The writer is counted as done, clears `writing` and always broadcasts. |
| Barrier.InitialInv | src/le_barrier.c:98-125 | The invariant holds when every thread is created and none has reached the barrier. |
| Barrier.NextInv | src/le_barrier.c:22-79 | Every arrival, barrier pass, guard test, retry and release preserves the invariant. |
| Barrier.PastBarrierOpen | src/le_barrier.c:26 | A thread past the barrier implies that the barrier has opened. |
| Barrier.ArriveInv | src/le_barrier.c:26 | An arrival preserves the invariant, including the arrival count and "nobody is past the barrier before all have arrived". |
| Barrier.PassInv | src/le_barrier.c:26 | Leaving the opened barrier preserves the invariant. |
| Barrier.ReaderAccessInv | src/le_barrier.c:28-46 | A reader's guard test and its release preserve the invariant. |
| Barrier.WriterEntryInv | src/le_barrier.c:57-65 | A writer's registration with its first test, and each retry, preserve the invariant. |
| Barrier.WriterLeaveInv | src/le_barrier.c:72-76 | The writer's release preserves the invariant. |
| Barrier.RunPreservesInv | src/le_barrier.c:22-79 | Every schedule of steps preserves the invariant. |
| Barrier.Next | src/le_barrier.c:22-79 | A step adds or loses no thread, and neither completion counter goes down. |
| Barrier.NextFrame | src/le_barrier.c:22-79 | A step moves only the thread taking it: every other thread keeps its place, and a returned thread stays returned. |
| Barrier.RunKeepsDone | src/le_barrier.c:40-76 | Over any schedule, `reader_finished` and `writer_finished` never decrease, and a thread that has returned stays returned. |
| Barrier.InvImpliesSafe | src/le_barrier.c:28-65 | The invariant implies that no reader reads while a writer writes, and that at most one writer writes. |
| Barrier.EveryRunIsSafe | src/le_barrier.c:22-154 | Every state that any schedule reaches from the start satisfies the invariant and is safe. |
| Barrier.PastBarrierMeansAllArrived | src/le_barrier.c:26 | Once any reader or writer is past the barrier, every thread has arrived at it and none is still before it. |
| Barrier.ReaderAdmittedOnlyWithoutWaitingWriters | src/le_barrier.c:30-33 | Writer priority: a reader is admitted only when no writer is waiting. |
| Barrier.ActiveWriterNotCounted | src/le_barrier.c:58-64 | A writer that is writing is no longer in `writer_count`, which counts only waiting writers. |
| Barrier.ReaderExitWakesWriters | src/le_barrier.c:41-45 | The last reader broadcasts exactly when a writer's guard has become true. |
| Barrier.WriterExitOpensGuards | src/le_barrier.c:72-75 | After a writer's release, every waiting writer's guard holds. A reader's guard holds exactly when no writer is waiting. |
| Barrier.AllDoneAccounting | src/le_barrier.c:40-76 | When every thread has returned, each read and each write was counted exactly once. Nobody reads, writes or waits. |

## Left out

- Threads and the blocking primitives are not executed. Each section run while holding a lock is one atomic step, and a condition-variable wait is a guard any waiting thread may re-test at any time. This covers every schedule the programs allow, and more.
- Liveness, starvation and fairness are left out. The model proves safety, writer and reader priority at the moment of admission, and the wake-up decisions, but not that every thread eventually runs.
- `src/le_mutex_cond.c` sets `finished` and broadcasts at lines 179-182 without holding `t_mutex`. This is modelled as one atomic step. A thread that has just found the flag clear may then miss that broadcast, which can only delay it; liveness is not modelled.
- In `MutexCond`, threads may be created in any order, not only in the order the role loop chooses. The role loop itself is modelled in `Launch`.
- In `BusyWait` and `Barrier`, every thread exists from the start, whereas the programs create them one by one. This only adds schedules.
- The simulated work is left out: `printf` messages, `sleep(1 + rand() % 3)`, and the random sleep length.
- `srand`, the clocks, elapsed time, throughput and other floating-point output are left out.
- The argument count check (`argc < 3`) and `atoi` are left out. `Launch.ValidateCounts` starts from the parsed integers.
- Failures of `sem_init`, `pthread_*_init` and `malloc` are left out, along with their teardown paths, `pthread_cancel`, `pthread_join` and the final cleanup. They concern the operating system, not the synchronisation logic.
- Counters are unbounded integers; 32-bit overflow, including of `num_readers + num_writers`, is not modelled. The thread counters never exceed the number of threads, but `read_sem` can: every writer release that finds no other writer registered posts `num_readers` tokens whether or not a reader is blocked (`src/le_semaphore.c:89-92`), so `read_sem` can reach `num_readers * num_writers`. `Semaphore.ReadTokensPileUp` proves that two such releases leave `2 * num_readers` tokens. A `sem_post` beyond `SEM_VALUE_MAX` fails with `EOVERFLOW`, which the C ignores; that limit is not modelled.
- The plotting and benchmark scripts around the programs are not part of this model.
