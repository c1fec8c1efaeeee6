# libk2: protocols and in-memory structures

This project models the concurrent and pointer-based cores of libk2 and proves what they keep:

- **Spin lock** (`SpinLock.dfy`) and **once-only initialisation** (`ThreadOnce.dfy`): any number of threads, one access to shared memory a step, under sequential consistency, with both implementations of the atomic increase (one indivisible step, or an addition followed by a separate read). A class beside each step system holds the loops of the source over the shared integer itself, with arbitrary steps of the other threads before every access; whatever it does is proved to be a run of that system that begins with the call.
- **Memory pool**: chunk geometry (`Alignment.dfy`, `PoolGeometry.dfy`), the plain stack it stands for (`PoolSpec.dfy`), what that stack answers, told from its answers alone (`PoolAnswers.dfy`), the free list threaded through raw memory (`MemPool.dfy`), the same operations cut into single accesses (`PoolSections.dfy`), and their interleaving under the spin lock by any number of threads that also write to the chunks they hold (`PoolSystem.dfy`).
- **Exit stack** (`ExitStack.dfy`): the linked list of exit routines, relinked in place, against insertion into a sorted sequence.
- **Singletons**: any set of classes whose constructors ask for each other, over `thread_once` and the exit stack (`Singletons.dfy`); that every `instance()` call returns (`SingletonProgress.dfy`) and exactly when (`SingletonReturns.dfy`); runs a scheduler can always bring about (`SingletonRuns.dfy`), and with them the exact conditions on the classes under which exit destroys in the wanted order (`SingletonOrder.dfy`).
- **Joinable threads**: owner, child and any number of cancellers over one mutex and one condition variable with spurious wakeups (`JoinableThreads.dfy`); how a thread ended and whether it was cancelled, told from the schedule (`ThreadEndings.dfy`); progress to the end (`ThreadProgress.dfy`); and the source's methods with their wait loops, on the context itself, among arbitrary steps of the other parties (`ThreadContext.dfy`).
- **Whole-message TCP transfer** (`Timing.dfy`, `TcpTransfer.dfy`, `TcpStream.dfy`, `TcpProgress.dfy`): the loops over partial `send()` and `recv()`, the timeout they share, and a writer and a reader interleaved over one stream, with what arrives and that it arrives.

In every step system an action names the thread (or party) that moves and what the environment chooses; an action that is not possible leaves the state as it is; a run is any sequence of actions. Properties of runs are therefore properties of every reachable state.

## What the code does not do

Where a property one would expect of the code is false, the model keeps the code and states exactly when it holds.

- With the two-step increase (`trunk/libk2/k2/atomic.h:60-64`) two first callers of `thread_once::run` can both add before either reads. Nobody wins and every caller waits for ever. No run can come to this exactly when the increase is one step or at most one thread calls (`ThreadOnce.NeverDoomedIffSound`).
- `-Lifetime` overflows for the smallest lifetime. The overflow is modelled as a two's-complement wrap; the language leaves it undefined. Two singletons of different lifetimes are destroyed in the order their lifetimes ask for exactly when neither lifetime is that value (`Singletons.DestructionOrderIff`). For a given set of classes all runs keep the order exactly when no class of that lifetime can be constructed beside one of another (`SingletonOrder.LifetimesKeptIff`, with runs that fail).
- Ties are destroyed in reverse order of *registration*. Construction and registration are two steps. For a given set of classes that is the reverse order of completed construction in all runs exactly when at most one thread uses singletons, or of any two classes of equal lifetime that can be constructed one needs the other (`SingletonOrder.TiesReversedIff`).
- The tests list the longest-lived object first (`trunk/libk2/test/test_suit.cpp:378-381`); the code destroys shorter lifetimes first. The model follows the code.
- `exec_registered` is never set, so each registration asks for one more `exec()`; running it many times equals running it once (`ExitSpec.ExecAgainChangesNothing`).
- `(socklen_t)` keeps 32 bits of a length, so a transfer of 2^32 bytes or more ends up asking for nothing and never completes (`TcpTransfer.StuckAbove`). With transfers that always move something, `tcp_write_all` completes exactly for shorter messages.
- The seconds handed to `select` are 32 bits wide, so a wait on a timeout of 2^32 seconds or more waits for the remainder modulo 2^32 seconds (`Timing.LimitWithin`). On Linux what is written back replaces the timeout, so the rest is lost to the waits that follow.
- `tcp_read_all` of 0 bytes returns 0, which is also how it reports a closed connection; the model counts it as closed.
- `safe_alignof` gives the least multiple of the alignment exactly when its sum does not wrap (`Alignment.LeastMultipleIffNoWrap`).

## Model

| member | source | states |
|---|---|---|
| SpinLocks.MutualExclusion | trunk/libk2/k2/spin_lock.h:65-91 | in every run of either form at most one thread holds; the counter is -1 plus the threads that have increased it and not yet taken that back, so it stays within -1 and n - 1 |
| SpinLocks.QuiescentIffMinusOne | trunk/libk2/k2/spin_lock.h:65-91 | the counter is -1 if and only if no thread holds or is between its increase and the matching decrease |
| SpinLocks.TimedOutLeavesNoTrace | trunk/libk2/k2/spin_lock.h:74-87 | a timed acquire that gave up, however it interleaved, leaves the whole lock state as it was if the others are back where they were |
| SpinLocks.AttemptSucceedsIffFree | trunk/libk2/k2/spin_lock.h:69-87 | a step of a thread that does not hold makes it a holder if and only if the counter it tests is 0, and then nobody held |
| SpinLocks.TimedOutOnlyIfExpired | trunk/libk2/k2/spin_lock.h:74-87 | in every run a thread is giving up only if its last look at the timer found it expired |
| SpinLocks.LookDecides | trunk/libk2/k2/spin_lock.h:80-86 | a look at an expired timer gives up; after one at a timer not expired the thread, whatever the others do, increases the counter again |
| SpinLocks.AcquireEndsHolding | trunk/libk2/k2/spin_lock.h:69-73 | an acquire without a timer ends only with the lock held, by this thread alone |
| SpinLocks.SpinLock.constructor | trunk/libk2/k2/spin_lock.h:65-67 | the lock starts free with its counter at -1 |
| SpinLocks.SpinLock.Acquire | trunk/libk2/k2/spin_lock.h:69-73 | the loop of increase, test and decrease over the counter, with the others at work before every access, is a run that begins with this thread's call; it returns only as the sole holder |
| SpinLocks.SpinLock.AcquireTimed | trunk/libk2/k2/spin_lock.h:74-87 | the loop that also looks at the timer, whose answers are given: it gives up exactly at the first look that finds the timer expired, with the increase taken back; true means sole holder |
| SpinLocks.SpinLock.Release | trunk/libk2/k2/spin_lock.h:88-91 | the one decrease takes the holder out of the lock, as part of the same run |
| ThreadOnce.StartedOnceAndReturnedAfterCompletion | trunk/libk2/source/threading.cpp:101-121 | either form: the routine starts at most once, at most one thread is between winning and setting done, and a returned call finds the routine completed |
| ThreadOnce.WhoeverSpinsWaitsForOneWinner | trunk/libk2/source/threading.cpp:106-120 | with a sound increase, while a caller spins and done is false exactly one thread is between winning and setting done |
| ThreadOnce.StepDescends | trunk/libk2/source/threading.cpp:106-120 | every step but a futile test of done lowers a measure over all callers |
| ThreadOnce.AllCallsReturn | trunk/libk2/source/threading.cpp:106-120 | progress: after any run, 6n rounds in which each thread moves at least once bring every call to its return |
| ThreadOnce.CollidingCallsDoom | trunk/libk2/k2/atomic.h:60-64 | the stuck run of the two-step form, for any two or more threads |
| ThreadOnce.DoomedForever | trunk/libk2/source/threading.cpp:113-119 | once stuck, no call on the object ever returns, whatever the callers do |
| ThreadOnce.NeverDoomedIffSound | trunk/libk2/k2/atomic.h:60-64 | no run gets stuck if and only if the increase is one step or at most one thread calls |
| ThreadOnce.OnceFlag.constructor | trunk/libk2/source/threading.cpp:101-121 | a fresh object: nobody has started, done is false |
| ThreadOnce.OnceFlag.RunImpl | trunk/libk2/source/threading.cpp:101-121 | test done, increase, then run the routine or spin, with the others at work before every access, is a run that begins with this call; if it returns, the routine was started and completed exactly once |
| Alignment.ComplementSharesNoBit | trunk/libk2/k2/byte_manip.h:64-74 | a word and its complement share no bit, which ties the arithmetic complement to the bitwise one |
| Alignment.MaskClearsRemainder | trunk/libk2/k2/byte_manip.h:64-74 | masking with the complement of 2^k - 1 subtracts exactly the remainder modulo 2^k |
| Alignment.LeastMultipleIffNoWrap | trunk/libk2/k2/byte_manip.h:64-74 | for every width, size and power-of-two alignment the formula is the least multiple not below the size if and only if the sum does not wrap |
| PoolGeometry.StrideFits | trunk/libk2/k2/pool_alloc.h:113-123 | for ChunkBytes 1 to 1024 the stride is whole words, at least ChunkBytes and less than 8 more, and an on-demand block is at most 4096 bytes |
| PoolSpec.GrowthIsSmall | trunk/libk2/k2/pool_alloc.h:141-145 | an on-demand block has the largest count of chunks that is at most ChunkCount and takes at most 4096 bytes, and at least one |
| PoolSpec.ChunksApart | trunk/libk2/k2/pool_alloc.h:104-110 | chunks cut from one block follow each other without overlap inside the block |
| PoolSpec.GrownIsLaid | trunk/libk2/k2/pool_alloc.h:97-111 | over all blocks, chunks stay pairwise disjoint and inside memory |
| PoolSpec.AfterKeepsOk | trunk/libk2/k2/pool_alloc.h:135-157 | alloc and dealloc keep: free chunks distinct, disjoint from live ones, none lost, none overlapping |
| PoolSpec.HistoryKeepsOk | trunk/libk2/k2/pool_alloc.h:135-157 | the same over any serial history of legal operations |
| PoolSpec.Footprint | trunk/libk2/k2/pool_alloc.h:116-145 | over any history the chunks cut never exceed the larger of ChunkCount and peak live + G - 1 |
| PoolAnswers.AllocAnswers | trunk/libk2/k2/pool_alloc.h:135-152 | alloc throws exactly if as many chunks are live as were cut and operator new gave no block; else its chunk was not live and becomes so, and a new block gives its last chunk first |
| PoolAnswers.DeallocAllocRestores | trunk/libk2/k2/pool_alloc.h:135-157 | alloc after dealloc gives back the chunk just returned and restores the pool |
| PoolAnswers.AllocDeallocRestores | trunk/libk2/k2/pool_alloc.h:135-157 | dealloc after alloc restores a pool that had a chunk to give |
| PoolAnswers.HistoryIsAnswered | trunk/libk2/k2/pool_alloc.h:135-157 | every answer of every serial history is the one the earlier answers ask for: bad_alloc exactly if all chunks cut so far are held and operator new gave no block, else a chunk nobody holds, and the one just given back if there is one |
| FreeList.ThreadIsUnique | trunk/libk2/k2/pool_alloc.h:91-96 | memory and head determine the list: no cycle, no fork |
| MemPools.MemPool.Deposit | trunk/libk2/k2/pool_alloc.h:91-96 | deposit writes one link and pushes the chunk on the threaded list |
| MemPools.MemPool.Grow | trunk/libk2/k2/pool_alloc.h:97-111 | grow threads all chunks of the block, last on top, and writes nothing outside the block, which is count strides long |
| MemPools.MemPool.constructor | trunk/libk2/k2/pool_alloc.h:118-124 | the pool starts with ChunkCount free chunks threaded through the first block |
| MemPools.MemPool.Alloc | trunk/libk2/k2/pool_alloc.h:135-152 | alloc pops the plain stack after refilling an empty one, or reports that operator new threw and changes nothing; no client's data changes |
| MemPools.MemPool.Dealloc | trunk/libk2/k2/pool_alloc.h:153-157 | dealloc of a live chunk pushes it; no other client's data changes |
| MemPools.MemPool.ClientWrite | trunk/libk2/k2/pool_alloc.h:91-111 | any write to a word of a live chunk leaves the free list and all other live chunks as they are |
| PoolSections.AdvanceRefines | trunk/libk2/k2/pool_alloc.h:91-157 | every single access inside the lock keeps the call on its way to the stack operation, and the last one completes it with the stack's result |
| PoolSections.ClientWriteUnseen | trunk/libk2/k2/pool_alloc.h:91-157 | a client's write in the middle of another thread's call cannot be seen by that call |
| PoolSections.AdvanceKeepsData | trunk/libk2/k2/pool_alloc.h:91-157 | no access of a call in progress changes a live chunk it does not carry |
| PoolSystem.NextKeepsInv | trunk/libk2/k2/pool_alloc.h:135-157 | every action of every thread, chunks handed from one thread to another included, keeps the whole invariant of lock, memory, ownership, order and returned results |
| PoolSystem.RunsAreSerial | trunk/libk2/k2/pool_alloc.h:135-157 | every interleaving gives each thread the results of one serial run of the plain stack, in lock-acquisition order, with every answer the one the earlier answers ask for |
| PoolSystem.ReturnsAreJust | trunk/libk2/k2/pool_alloc.h:135-152 | each alloc that has returned to a thread, in any run, threw exactly if all chunks were held at its place in the lock order and operator new gave no block; else it gave a chunk nobody held there |
| PoolSystem.NoChunkHeldTwice | trunk/libk2/k2/pool_alloc.h:135-157 | in every run no chunk is held by two clients, and each held chunk is live in the serial history |
| PoolSystem.QuiescentPoolIsTheStack | trunk/libk2/k2/pool_alloc.h:135-157 | with no call in progress memory holds exactly the stack of the serial history and the live chunks are exactly those held |
| PoolSystem.SharedFootprint | trunk/libk2/k2/pool_alloc.h:135-157 | the footprint bound under any interleaving |
| PoolSystem.ClientDataIsPrivate | trunk/libk2/k2/pool_alloc.h:135-157 | in every run, no action but its own client's store changes a word of a held chunk |
| PoolSystem.StoreTakesEffect | trunk/libk2/k2/pool_alloc.h:91-157 | in every run what a client stores in a chunk it holds is then there |
| ExitSpec.RegisteredIsSorted | trunk/libk2/source/runtime.cpp:168-194 | after any registrations the list is those registrations by decreasing priority, newest first among equals |
| ExitSpec.SortedIsUnique | trunk/libk2/source/runtime.cpp:168-194 | there is only one such list |
| ExitSpec.InsertAt | trunk/libk2/source/runtime.cpp:179-193 | the place where the pointer walk stops is the place sorted insertion takes |
| ExitSpec.EveryRoutineAccountedFor | trunk/libk2/source/runtime.cpp:195-204 | over any history of registrations and exec calls, routines run plus routines pending are the routines registered, each once |
| ExitSpec.ExecAgainChangesNothing | trunk/libk2/source/runtime.cpp:220-229 | any positive number of exec calls in a row equals one |
| ExitSpec.PendingIsRegistered | trunk/libk2/source/runtime.cpp:168-204 | what is pending after a run of registrations is the sorted list |
| ExitSpec.RunsInOrder | trunk/libk2/source/runtime.cpp:168-204 | exec runs every registered routine once, higher priorities first and the later registered first among equals |
| ExitStack.AtexitTask.constructor | trunk/libk2/source/runtime.cpp:145-164 | a task holds its routine and priority and links to nothing |
| ExitStack.AtexitStack.Walk | trunk/libk2/source/runtime.cpp:181-186 | the walk stops at the last task of the run of higher priorities at the head: that task is above the new one and its successor, if any, is not |
| ExitStack.AtexitStack.LinkBehind | trunk/libk2/source/runtime.cpp:187-188 | linking behind a node splices the task in and keeps the list acyclic |
| ExitStack.AtexitStack.Push | trunk/libk2/source/runtime.cpp:168-194 | the in-place push refines sorted insertion |
| ExitStack.AtexitStack.Exec | trunk/libk2/source/runtime.cpp:195-204 | exec runs each pending task once, in list order, deletes exactly those tasks, and empties the list |
| ExitStack.AtexitStack.AtexitImpl | trunk/libk2/source/runtime.cpp:220-229 | registration pushes, and asks for one more exec unless in a dynamic library |
| ExitStack.AtexitStack.ProcessExit | trunk/libk2/source/runtime.cpp:237-242 | all exec calls made at exit together run and delete each pending task once |
| Singletons.NextKeepsInv | trunk/libk2/k2/singleton.h:111-139 | every step of every thread keeps the invariant of once objects, call stacks, construction record and exit list |
| Singletons.ConstructedOnceAndCompletely | trunk/libk2/k2/singleton.h:111-134 | in every run each class is constructed at most once, and a returned instance call got a complete, registered object |
| Singletons.DestroyedOnceIffConstructed | trunk/libk2/k2/singleton.h:118-139 | exec at exit destroys each registered class once, and at rest destroys every class exactly as often as it was constructed |
| Singletons.NegationOrdersIff | trunk/libk2/k2/singleton.h:126 | negated lifetimes order two registrations as the lifetimes ask if and only if the lifetimes are equal or neither is the smallest int |
| Singletons.DestructionOrderIff | trunk/libk2/k2/singleton.h:118-139 | in every run any two registered classes are destroyed shorter lifetime first and ties in reverse order of registration, if and only if the lifetimes are equal or neither is the smallest int |
| Singletons.DestroyedBeforeWhatItUsedIff | trunk/libk2/k2/singleton.h:118-139 | a class that needs an instance of no shorter lifetime, through any chain of constructors, is destroyed before it, if and only if its own lifetime is not the smallest int or the other's is too |
| Singletons.NoDeadlock | trunk/libk2/k2/singleton.h:111-134 | with acyclic constructors and a sound increase, in every reachable state with a call in progress some thread can go on |
| SingletonProgress.StepWorks | trunk/libk2/k2/singleton.h:111-134 | every step of a thread in instance calls is futile or takes away some of the work left on its call stack |
| SingletonProgress.AllInstancesReturn | trunk/libk2/k2/singleton.h:111-134 | progress: with acyclic constructors and a sound increase, after any run every instance call returns within as many rounds as there is work left |
| SingletonReturns.AllInstancesReturnIff | trunk/libk2/k2/singleton.h:111-134 | for any threads and classes: after every run enough rounds bring every instance call to its return if and only if there is no thread or no class, or the increase is sound and no class needs itself |
| SingletonRuns.SoloReturns | trunk/libk2/k2/singleton.h:111-134 | a thread that steps alone, and keeps clear of a class held by another, gets the instance it asked for constructed and registered |
| SingletonOrder.BothRegistered | trunk/libk2/k2/singleton.h:111-134 | some run constructs and registers any two classes that do not need themselves |
| SingletonOrder.CrossOver | trunk/libk2/k2/singleton.h:118-134 | of two classes neither of which needs the other, some run completes one first and registers it last |
| SingletonOrder.TiesReversedIff | trunk/libk2/k2/singleton.h:118-134 | for any set of classes: ties go in reverse order of completed construction in all runs if and only if at most one thread uses singletons or any two constructible classes of equal lifetime are related by need |
| SingletonOrder.LifetimesKeptIff | trunk/libk2/k2/singleton.h:126 | for any set of classes: all runs destroy in the order the lifetimes ask for if and only if no constructible class of the smallest lifetime stands beside one of another |
| SingletonOrder.UsersFirstIff | trunk/libk2/k2/singleton.h:118-139 | for any set of classes: all runs destroy a class before all instances of no shorter lifetime it needs, through any chain of constructors, if and only if no constructible class of the smallest lifetime needs one of another |
| SingletonOrder.ShortestLivedLast | trunk/libk2/k2/singleton.h:126 | a run in which the class of the smallest lifetime is not destroyed in its turn |
| SingletonOrder.ShortestLivedLastUser | trunk/libk2/k2/singleton.h:126 | a run in which such a class is not destroyed before the longer-lived instance it uses |
| JoinableThreads.NextKeepsInv | trunk/libk2/source/threading.cpp:337-467 | every step of owner, child and cancellers, and every spurious wakeup, keeps the invariant |
| JoinableThreads.NoLostWakeup | trunk/libk2/source/threading.cpp:361-367 | with the mutex free, a blocked spawner still sees initializing and a blocked joiner a thread not exited |
| JoinableThreads.NoDeadlock | trunk/libk2/source/threading.cpp:337-467 | until the object is gone some party has a step other than a spurious wakeup |
| JoinableThreads.DeletedOnceAndLast | trunk/libk2/source/threading.cpp:413-446 | the context is deleted exactly once, by the owner, after the last access of child and cancellers and after the thread-local slot let go of it |
| JoinableThreads.StateMovesForward | trunk/libk2/source/threading.cpp:388-418 | the state never moves back, and the exit cause is known and final once the thread has exited |
| JoinableThreads.CancelSticks | trunk/libk2/source/threading.cpp:447-456 | a cancel that took effect is never overwritten, and every later test_cancel before exit throws |
| JoinableThreads.CancelTakesEffect | trunk/libk2/source/threading.cpp:447-456 | a cancel of a constructed thread comes after the running store, and takes effect if and only if the thread has not exited |
| JoinableThreads.JoinSeesFinalCause | trunk/libk2/source/threading.cpp:457-467 | a join about to return sees exited and an exit cause other than na |
| ThreadEndings.CauseSaysHowItEnded | trunk/libk2/source/threading.cpp:398-411 | in every run, once the thread has exited its cause is completed exactly if its function returned, uncaught exception exactly if it threw, cancelled exactly if it let a cancel signal out |
| ThreadEndings.CancelledIff | trunk/libk2/source/threading.cpp:447-456 | in every run a cancel is in effect exactly if some cancel call found the thread not exited |
| ThreadEndings.UncancelledEndsAsItsFunction | trunk/libk2/source/threading.cpp:382-435 | in every run a thread never cancelled whose function never threw exits with cause completed; only a cancelled one has a signal or the cause cancelled |
| ThreadProgress.TurnDescends | trunk/libk2/source/threading.cpp:337-467 | once nobody asks for anything new, every step of a party is futile or brings the end nearer |
| ThreadProgress.WakeKeepsHelp | trunk/libk2/source/threading.cpp:361-367 | a spurious wakeup makes no party's next step futile that was not futile before |
| ThreadProgress.ObjectIsDestroyed | trunk/libk2/source/threading.cpp:382-446 | progress: after any run, once the owner wishes to destroy the object and the thread function ends, 34 + 3n rounds and 2 more for each spurious wakeup among them destroy it, with one deletion |
| ThreadContexts.ThreadContext.constructor | trunk/libk2/source/threading.cpp:292-301 | the initial state of a context |
| ThreadContexts.ThreadContext.Wait | trunk/libk2/source/threading.cpp:361-367 | what happens begins with the one step that gives the mutex back and blocks the caller, and a wait that is over has the caller where it was, holding the mutex, so it was woken in between by a signal or spuriously |
| ThreadContexts.ThreadContext.Spawn | trunk/libk2/source/threading.cpp:337-379 | a spawn that returns has seen the thread leave the initial state; one that fails has deleted the context once, with no thread created |
| ThreadContexts.ThreadContext.Join | trunk/libk2/source/threading.cpp:457-467 | a join that returns finds the thread exited and its exit cause known, whatever the others and spurious wakeups did |
| ThreadContexts.ThreadContext.Destroy | trunk/libk2/source/threading.cpp:438-446 | a destructor that returns has deleted the context exactly once, after the thread ended and its slot let go |
| ThreadContexts.ThreadContext.Cancel | trunk/libk2/source/threading.cpp:447-456 | a cancel that returns, by the owner or another thread, has taken effect or found the thread exited |
| ThreadContexts.ThreadContext.TestCancel | trunk/libk2/source/threading.cpp:500-513 | test_cancel throws if a cancel took effect before the call, and only if one has by its return |
| ThreadContexts.ThreadContext.EntryWrapper | trunk/libk2/source/threading.cpp:382-435 | a wrapper that returns leaves the thread exited and ended, its slot empty and the stored cause the one that the given behaviour of the thread function calls for: how often it tests for cancel, whether it absorbs the signal, whether it throws; cancelled only after a cancel |
| Timing.LimitWithin | trunk/libk2/source/timing.cpp:315-324 | the seconds and milliseconds given to select are the timeout less whole multiples of 2^32 seconds |
| Timing.TimeSpan.Subtract | trunk/libk2/source/timing.cpp:331-336 | unsigned subtraction, exact when nothing wraps |
| Timing.NeverGrows | trunk/libk2/source/transport.cpp:195-251 | across all waits that share a timeout the remaining time never increases |
| Timing.BudgetKept | trunk/libk2/source/transport.cpp:195-251 | if each wait blocks no longer than its limit and its measured time, all waits together block no longer than the timeout |
| Timing.NoMoreTaken | trunk/libk2/source/transport.cpp:195-251 | over all ready waits no more is taken from a shared timeout than was spent, and one millisecond for each wait; on Linux for timeouts below 2^32 seconds |
| Timing.SocketWait2 | trunk/libk2/source/transport.cpp:195-251 | after a ready wait the timeout is, on Linux, what select wrote back to the millisecond below and, elsewhere, what it was less the measured time, or 0; after a wait in vain it is 0 |
| TcpTransfer.StuckAbove | trunk/libk2/source/transport.cpp:345-354 | truncated lengths never bring 2^32 or more remaining bytes below 2^32 |
| TcpTransfer.Socket.Write | trunk/libk2/source/transport.cpp:345-354 | tcp_write hands over a prefix of what is asked, or fails and hands over nothing |
| TcpTransfer.Socket.WriteAll | trunk/libk2/source/transport.cpp:355-369 | what has been sent is always a prefix of the message, all of it on return; an error is reported exactly if some call failed, and it was the last; with transfers that move something the loop ends if and only if the message is below 2^32 bytes |
| TcpTransfer.Socket.WriteAllTimed | trunk/libk2/source/transport.cpp:370-392 | the same with a shared timeout: each wait gets what the earlier ones left, the call times out exactly if its last wait was in vain, and the budget is kept |
| TcpTransfer.Socket.Read | trunk/libk2/source/transport.cpp:393-400 | tcp_read appends a prefix of the stream to the buffer, or fails and takes nothing |
| TcpTransfer.Socket.ReadAll | trunk/libk2/source/transport.cpp:401-419 | the buffer is always a prefix of the stream, of the size asked for on success; an error is reported exactly if some call failed, and it was the last; closed exactly if none failed and the last moved nothing; willing transfers and a long enough stream succeed if and only if the size is below 2^32 |
| TcpTransfer.Socket.ReadAllTimed | trunk/libk2/source/transport.cpp:420-447 | the same with a shared timeout and its budget, timed out exactly if the last wait was in vain |
| TcpStream.RunConserves | trunk/libk2/source/transport.cpp:345-419 | at every moment the bytes accepted from the writer are those delivered, those in the reader's buffer and those on the wire, in order |
| TcpStream.DeliveredIsPrefix | trunk/libk2/source/transport.cpp:355-419 | under any segmentation, interleaving, read sizes and failures, what read_all calls delivered is a prefix of the messages put together |
| TcpStream.MessagesArriveWhole | trunk/libk2/source/transport.cpp:355-419 | if the reader asks for the sizes of the messages, each read_all delivers exactly one message |
| TcpStream.SendThrough | trunk/libk2/source/transport.cpp:345-369 | a step of the interleaved writer is a transfer through its socket: what the socket has sent is what the network accepted |
| TcpStream.RecvThrough | trunk/libk2/source/transport.cpp:393-419 | a step of the interleaved reader is a transfer through its socket: the buffer then holds the part, or the whole request |
| TcpStream.ReaderEndsIff | trunk/libk2/source/transport.cpp:393-419 | the reader ends without success exactly if recv fails, if the writer has failed and nothing is left on the wire, or if recv moves nothing of what is there |
| TcpProgress.CoveredRequestsAreDelivered | trunk/libk2/source/transport.cpp:355-419 | progress: for messages below 2^32 bytes and read sizes from 1 to 2^32 - 1, after any run without failures enough rounds of transfers that move something deliver every request the messages cover, as a prefix of the messages |

## Left out

- The `mem_pool` destructor: `grow` stores the link to the previous block in the first chunk and then deposits that chunk, which overwrites the link, so "every block is freed once" is not true of the code.
- `shared_pool_allocator`: its path for large sizes deletes and then also deposits; the pool beneath it is modelled instead.
- Detached threads, whose context is deleted by the child while its own guard and possibly the spawner still use it.
- Timed `join`, several concurrent joiners, and `cancel_enabled`, whose flag `test_cancel` never reads.
- Exit routines that register more routines while `exec` runs, a once routine that throws, and `runtime::atexit` that fails.
- A once routine that calls `run` on its own object, or a constructor that asks for its own instance: both wait for ever in the code. In `Singletons` such a constructor makes no further step.
- Fairness and liveness of the spin lock: its back-off can livelock.
- Weak memory: all step systems assume sequential consistency.
- Timed condition variables, exceptions from thread-local storage, and errors of mutex operations.
- Address comparison and ordering, byte-order helpers, calendars, process creation, name resolution, socket set-up, UDP, Winsock and type traits.
- SpinLocks.SpinLock.Acquire: the source loops without bound; the method watches it for a given number of attempts and reports if it still spins, as AcquireTimed does.
- ThreadOnce.OnceFlag.RunImpl: watched for a given number of tests of done, like Acquire; progress is AllCallsReturn.
- ThreadContexts.ThreadContext.Join: each wait for the mutex, a signal or the end of the thread is watched for a given number of tries, as in the other methods of the class; progress is ObjectIsDestroyed.
- ThreadContexts.ThreadContext.Spawn: the thread object's other fields and the errors thrown are not modelled; a failed creation is reported as such.
- MemPools.MemPool.Alloc: memory is an array of 8-byte words in which a pointer fits, not bytes; the stride is therefore given in words. The overflow of the block size in size_t is not modelled.
- PoolSections.AdvanceRefines: the operations cut into single accesses are modelled on values rather than on the class, so that they can be interleaved. operator new is a choice of the environment that gives a block clear of all chunks or throws.
- Singletons.NextKeepsInv: modelled on values, with registration as one step; the spin lock around the exit stack is not interleaved with it. As that lock can livelock, the progress of `instance()` calls is that of calls whose registration gets it.
- ExitStack.AtexitStack.AtexitImpl: runs under the lock of the exit stack and is modelled as one call, not interleaved.
- JoinableThreads.NoDeadlock: says that a step is possible, not that a thread function ends.
- ThreadProgress.ObjectIsDestroyed: with spurious wakeups in every round for ever, an unfair mutex could always go to the woken owner; the number of rounds therefore grows with theirs.
- TcpTransfer.Socket.WriteAll: send() and recv() move at most as many bytes in one call as an int can report; a larger count, which would turn negative, is not modelled. The unbounded loop is watched for a given number of rounds, as in the other three transfers.
- TcpStream.DeliveredIsPrefix: one writer and one reader on the untimed forms; a timed form that times out is a failure of its writer or reader.
