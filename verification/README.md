# µT-Kernel 3.0 on RISC-V: a model and its proofs

This project models the densest parts of µT-Kernel 3.0 (the kernel of IEEE 2050-2018)
and of its ESP32 port layer, and proves what they promise. The kernel is written in C
and edits shared rings, control blocks and counters in place; the model follows it
routine by routine.

- **Mutexes** (`MutexSpec`, `MutexSteps`, `MutexOrder`, `Mutex`, `MutexTheorems`): the task table and
  the mutex table with `knl_change_task_priority`, `mtx_chg_pri` and `knl_release_mutex`
  mutually recursive along the waits-for chain. The invariant is a global fixpoint of all
  priorities; a rank along the waits-for order is the termination measure.
- **Allocator** (`Rings`, `FreeIndex`, `Areas`, `Arena`, `ArenaTheorems`, `MemPool`): memory
  as cells of one `QUEUE` each, with the pointer updates of `queue.h` and `memory.c`
  written out. The kernel heap and the variable-size pool share the code and differ in
  their layout. Bit 0 of the second word of a cell, in a header the in-use flag, is a field
  of its own: plain stores clear it, copies copy it, and the macro `Assign` keeps it.
- **Waiting and communication** (`WaitQueue`, `FirstCome`, `Semaphore`, `EventFlag`, `MessageRing`,
  `MessageBuffer`, `Rendezvous`): each object as a value with specification functions, a
  class with the kernel's loops proved against them, and theorems over all runs.
- **Protocols on top** (`FastLock`, `FastMLock`, `ShimRing`, `ShimQueue`): step machines for
  any number of threads in any interleaving, using the semaphore and event flag above.
- **Time** (`Timer`, `Cyclic`, `Tick`): 32-bit event times related to unwrapped times.
- **Scheduling** (`ReadyQueue`, `Tasks`, `Dispatcher`): the ready queue, the links of task
  control blocks, and interrupt entry and exit as steps.

Smaller numbers are higher priorities, as inside the kernel. `dafny verify dfyconfig.toml`
checks everything.

Where the code needs a condition, the model states it:

- Priority inheritance needs an acyclic waits-for graph. `TkLocMtx` keeps the invariant
  exactly if the caller's wait closes no cycle; the kernel itself does not look.
- The heap is given in whole cells of 8 bytes. `Imalloc` covers requests up to `MAX_ALLOCATE`:
  rounding is right exactly up to there (`WordRounding`), and for the seven sizes above the
  search takes the smallest free area, however small (`Oversized`).
- `Ifree` frees live blocks, since it tests nothing: freeing a free block always destroys the
  index (`DoubleFree`). `RelBlk` and `TkRelMpl` test one bit. They cover every pointer that is
  refused and every live block. For the start of a block the bit is right (`BlockFlag`), and
  where the index keeps a link or a size it is clear (`LinkRefused`); for any other pointer
  into the pool it is whatever lies there (`StrayPointer`, `RefusalDecided`).
- Scheduler claims are for tasks without kernel object lock (`klocktsk` is null).
- Timer claims use the configured period of 1. Times at most 2^31 ahead are told apart, others
  are taken for times in the past (`MeantExactly`, `ReachedExactly`). This reaches handlers
  that were stopped for long (`PhaseKeptExactly`) and cyclic handlers with a long first phase:
  above 2^31 they are called at the next tick, and at exactly 2^31 they hold up every event
  that is queued or set before the next tick (`FirstActivation`, `HeldUp`).
- `FastLock` ignores the answer of `tk_wai_sem`. Exclusion is guaranteed along a run exactly
  if no blocked thread is released by force (`ExclusionExactlyIfUnforced`).
- A handler's message passes the waiting senders unless it does not fit (`HandlerKeepsOrder`);
  the order of all other messages is that of sending (`OneStream`).

Where code and documentation disagree, the model follows the code:

- A shim queue of length n holds n - 1 items, so one of length 1 holds none, although
  overwriting is meant for that length (`LengthOneHoldsNothing`).
- The shim treats sending to the front as sending to the back (`FrontGoesLast`); only
  overwriting differs.
- `tk_rel_mpl` lets the address just behind the pool pass its range test. It is then refused
  exactly if a bit in the last cell of the last block is clear (`JustBehind`).

## Model

| member | source | states |
|---|---|---|
| `MutexTheorems.EffectivePriority` | kernel/tkernel/mutex.c:61-103 | in every consistent state a task runs exactly at the best of the base priorities and ceilings of itself and of all tasks that wait for it, directly or through a chain of inherit mutexes |
| `MutexTheorems.PrioritiesDetermined` | kernel/tkernel/mutex.c:306-346 | who holds and awaits what determines all priorities: two consistent states that agree on that have equal priorities, so the propagation is independent of history |
| `MutexTheorems.ChainBoost` | kernel/tkernel/mutex.c:306-328 | no priority inversion along a chain of inherit mutexes: whoever blocks a task runs at least at its priority |
| `MutexTheorems.OwnerBeatsWaiter` | kernel/tkernel/mutex.c:358-437 | the owner of an inherit mutex is at least as urgent as each of its waiters |
| `MutexTheorems.Support` | kernel/tkernel/mutex.c:61-103 | no phantom boost: a task's priority is always the own entitlement of itself or of a task behind it |
| `MutexTheorems.UnlockUndoesLock` | kernel/tkernel/mutex.c:442-494 | locking a free mutex and unlocking it restores every priority, chain and ring |
| `MutexTheorems.GivingUpUndoesWaiting` | kernel/tkernel/mutex.c:333-346 | a wait that ends by timeout or forced release leaves no trace: every task raised on its behalf, however far along the chain, has its old priority again, and every TA_TFIFO ring its old order |
| `MutexTheorems.LockAnswers` | kernel/tkernel/mutex.c:358-437 | each answer of tk_loc_mtx exactly when it is given: E_ILUSE if and only if the caller owns the mutex or would break the ceiling rule by getting it |
| `MutexTheorems.BestWaiterGets` | kernel/tkernel/mutex.c:465-487 | an unlocked mutex is free exactly if nobody waits; otherwise a waiter gets it than which no other is more urgent, unless the ring is TA_TFIFO, and the others wait on |
| `MutexOrder.FifoInOrder` | kernel/tkernel/mutex.c:358-494 | over every run of calls the waiters of a TA_TFIFO mutex become its owners in the order in which they began to wait, but for those that gave up or died; the rest still waits in that order |
| `FirstCome.InOrder` | kernel/tkernel/wait.c:124-136 | whoever keeps a line in order of arrival serves in order: those served and behind them those that wait are those that came and did not give up, in the order in which they came |
| `MutexSteps.JoinAcyclic` | kernel/tkernel/mutex.c:358-437 | waiting for a mutex keeps the waits-for graph acyclic if and only if its owner does not already wait, through others, for the caller |
| `Mutex.Kernel.ChangeTaskPriority` | kernel/tkernel/task.c:144-169 | the recursion terminates along the waits-for order; every task but the excused ones keeps or regains its due priority, tasks upstream are untouched, raising only raises |
| `Mutex.Kernel.MtxChgPri` | kernel/tkernel/mutex.c:306-328 | the wait ring is ordered again and the change is passed to the owner of an inherit mutex until all priorities behind it are due |
| `Mutex.Kernel.ReleaseMutex` | kernel/tkernel/mutex.c:61-103 | the mutex leaves the owner's chain and the owner gets the best of what is left, propagated |
| `Mutex.Kernel.BestPriority` | kernel/tkernel/mutex.c:69-97 | the loop over the chain finds the best of base priority, held ceilings and head waiters, and the chain without the released mutex |
| `Mutex.Kernel.QueueInsertTpri` | kernel/tkernel/wait.h:78-96 | the scan places a task behind all of its own or higher priority |
| `Mutex.Kernel.constructor` | kernel/tkernel/mutex.c:33-51 | the invariant holds at the start |
| `Mutex.Kernel.TkCreMtx` | kernel/tkernel/mutex.c:211-262 | E_LIMIT changing nothing if no control block is free; otherwise a new free mutex, and the invariant is kept |
| `Mutex.Kernel.TkLocMtx` | kernel/tkernel/mutex.c:358-437 | exact answer for every case; the whole new state when the lock is taken; a caller that waits is last in a TA_TFIFO ring and in the others behind its equals and before the less urgent, and no other TA_TFIFO ring changes; the invariant then holds exactly if no cycle is closed |
| `Mutex.Kernel.TkUnlMtx` | kernel/tkernel/mutex.c:442-494 | exact answer; the first waiter owns the mutex and the others keep their order, the caller's chain loses it, and the invariant holds |
| `Mutex.Kernel.HandOver` | kernel/tkernel/mutex.c:465-487 | the mutex goes to its first waiter, raised to the ceiling if there is one, or is free |
| `Mutex.Kernel.ReleaseWait` | kernel/tkernel/mutex.c:333-346 | a waiter that times out or is released leaves the ring, the owner's priority is recomputed, the mutexes of the waiter itself keep their rings, nothing else changes |
| `Mutex.Kernel.SignalAllMutex` | kernel/tkernel/mutex.c:111-145 | every mutex of a terminating task goes to its first waiter or is free; all others are unchanged |
| `Mutex.Kernel.TerminateTask` | kernel/tkernel/task_manage.c:197-218 | the task is dormant with its initial priority; each mutex it held went to its first waiter, whether or not it was itself waiting; the other mutexes only lost it from their rings, TA_TFIFO rings without changing their order; the invariant holds |
| `Mutex.Kernel.ChgPriMutex` | kernel/tkernel/mutex.c:158-205 | E_ILUSE exactly if a held or awaited ceiling is exceeded, and the priority the new base priority leads to |
| `Mutex.Kernel.TkChgPri` | kernel/tkernel/task_manage.c:330-375 | exact answer; base priority set, every task has its due priority again, and only rings that go by priority are reordered |
| `Mutex.Kernel.TkStaTsk` | kernel/tkernel/task_manage.c:169-191 | exact answer; a started task keeps the invariant |
| `Mutex.Kernel.WaitOther` | kernel/tkernel/wait.c:65-77 | a wait for another object keeps the invariant and changes nothing else |
| `Mutex.Kernel.Halt` | kernel/tkernel/task_sync.c:54-64 | suspending and resuming, of a task that waits for a mutex too, keep the invariant and change the state alone |
| `MutexSteps.HaltsApart` | kernel/tkernel/wait.h:143-160 | waiting and suspension do not mix: the end of a wait leaves a suspended task suspended, and a resumption undoes a suspension in whatever state |
| `Mutex.Kernel.WaitDelete` | kernel/tkernel/wait.c:97-106 | all waiters of the mutex are released while the invariant holds for the rest |
| `Mutex.Kernel.TkDelMtx` | kernel/tkernel/mutex.c:268-299 | the mutex is gone, its waiters are released, its owner and those behind have their due priority, and TA_TFIFO rings keep their order |
| `Rings.RingInsert` | include/sys/queue.h:58-64 | QueInsert on linked cells is insertion into the sequence the ring stands for |
| `Rings.RingRemove` | include/sys/queue.h:71-77 | QueRemove is removal from that sequence |
| `Rings.InsertOnlyRing` | include/sys/queue.h:58-64 | QueInsert touches no cell outside the ring but the new one; in a ring without flag bits it leaves none |
| `Rings.RemoveOnlyRing` | include/sys/queue.h:71-77 | QueRemove touches no cell outside the ring and sets no flag bit in one without |
| `FreeIndex.AppendIndexed` | kernel/tkernel/memory.c:77-106 | registration at its place keeps the size-ordered ring with its same-size chains an exact index of the free areas, its links and sizes free of the flag bit, and touches only their cells |
| `FreeIndex.RemoveIndexed` | kernel/tkernel/memory.c:111-125 | removal of any registered area, ring member or follower, keeps the index exact for the others, their links free of the flag bit, and leaves a ring member's size readable |
| `FreeIndex.BestFit` | kernel/tkernel/memory.c:29-55 | the ring member at the search position is the smallest free area that fits, and there is none exactly if nothing fits |
| `Areas.SplitAreas` | kernel/tkernel/memory.c:131-137 | inserting a header inside an area keeps the areas a tiling |
| `Areas.MergeAreas` | kernel/tkernel/memory.c:142-146 | removing a header keeps the areas a tiling |
| `Areas.BlocksDisjoint` | kernel/tkernel/memory.c:131-146 | blocks of different headers do not overlap |
| `Arena.RoundedProps` | kernel/tkernel/memory.h:67-73 | rounding yields the least admissible multiple of 8 that is large enough and not above the maximum |
| `Arena.WordRounding` | kernel/tkernel/memory.h:53-62 | rounding in a 32-bit word is right exactly up to MAX_ALLOCATE; each of the sizes above becomes -2^31 |
| `Arena.Allocator.SearchFreeArea` | kernel/tkernel/memory.c:29-55 | from whichever end it starts, the search returns the smallest free area that fits, or the sentinel exactly if none does |
| `Arena.Allocator.SearchDown` | kernel/tkernel/memory.c:36-45 | the search from the large end stops at the place where all smaller areas are before it |
| `Arena.Allocator.SearchUp` | kernel/tkernel/memory.c:46-54 | the search from the small end stops at the same place |
| `Arena.Allocator.MaxFreeSize` | kernel/tkernel/mempool.h:54-60 | a size exceeds the result exactly if no free area fits it |
| `Arena.Allocator.RemoveFreeQue` | kernel/tkernel/memory.c:111-125 | the area leaves the index and nothing else changes for areas and index |
| `Arena.Allocator.AppendFreeArea` | kernel/tkernel/memory.c:77-106 | the area is registered with its true size |
| `Arena.Allocator.AppendFreeAreaBound` | kernel/tkernel/mempool.c:60-104 | the same for the first and the last area of a pool, whose header or end marker lies outside it |
| `Arena.SparesBlocks` | kernel/tkernel/memory.c:160-287 | whatever is written to headers and to registered free areas, no cell of a used block changes |
| `Arena.Allocator.Heap` | kernel/tkernel/memory.c:304-332 | the initial heap is one free area and satisfies the invariant, whatever the memory held |
| `Arena.Allocator.Pool` | kernel/tkernel/mempool.c:222-235 | the initial pool is one free area and satisfies the invariant |
| `Arena.Allocator.Imalloc` | kernel/tkernel/memory.c:160-206 | NULL exactly if the size is not positive or no free area fits, changing nothing; otherwise the best fit, cut to the rounded size exactly if the rest can be an area, new and apart; no cell of any other block changes; the invariant holds |
| `Arena.Allocator.Ifree` | kernel/tkernel/memory.c:261-287 | the block is no longer live, neighbouring free areas are merged, no cell of any other block changes, the invariant holds |
| `Arena.Allocator.GetBlk` | kernel/tkernel/mempool.c:111-144 | the same as Imalloc for a pool; what did not fit before does not fit after |
| `Arena.Allocator.RelBlk` | kernel/tkernel/mempool.c:149-186 | E_PAR with nothing changed for every pointer whose header cell has a clear flag; a used block is freed and merged with its neighbours, and no cell of any other block changes |
| `Arena.Allocator.Carve` | kernel/tkernel/memory.c:184-202 | taking an area out of the index and splitting it keeps the tiling, the index, the separation of free areas and the contents of used blocks; the block is as large as asked for, or the whole area if the rest is too small |
| `Arena.Allocator.MergeNext` | kernel/tkernel/memory.c:271-275 | an unused area behind is absorbed |
| `Arena.Allocator.MergePrev` | kernel/tkernel/memory.c:277-282 | an unused area before absorbs; no two neighbouring areas are unused any more |
| `ArenaTheorems.Tiling` | kernel/tkernel/memory.c:131-146 | every cell of the memory belongs to exactly one area: no gap, no overlap |
| `ArenaTheorems.LiveBlocksDisjoint` | kernel/tkernel/memory.c:160-206 | live blocks lie in the memory and are pairwise disjoint |
| `ArenaTheorems.LiveDetermineAreas` | kernel/tkernel/memory.c:261-287 | the division into areas and the free sizes depend only on which blocks are live |
| `ArenaTheorems.AllFreed` | kernel/tkernel/memory.c:261-287 | with no live block, in whatever order they were freed, the memory is one free area |
| `ArenaTheorems.FreeUndoesAlloc` | kernel/tkernel/memory.c:160-287 | freeing a block at once restores live blocks, areas and free sizes, and has changed no cell of another block |
| `ArenaTheorems.RelUndoesGet` | kernel/tkernel/mempool.c:111-186 | the same for a block of a pool |
| `ArenaTheorems.ClientStore` | kernel/tkernel/memory.c:160-206 | whatever a client stores in its own block, headers and free index stay intact |
| `ArenaTheorems.BlockFlag` | kernel/tkernel/mempool.c:154-160 | a pointer to the start of a block is refused exactly if the block is free |
| `ArenaTheorems.StrayPointer` | kernel/tkernel/mempool.c:154-160 | a pointer into the pool that starts no block and whose cell holds no link or size of the index is refused or not as the flag happens to be: two sound memories with the same areas, index and live blocks that differ in that bit answer differently |
| `ArenaTheorems.LinkRefused` | kernel/tkernel/memory.c:91-104 | a pointer whose cell holds a link or the size of a free area is always refused |
| `ArenaTheorems.RefusalDecided` | kernel/tkernel/mempool.c:154-160 | areas, index and live blocks decide whether a pointer is refused if and only if it is out of range or the start of a block, or its cell holds a link or size of the index |
| `ArenaTheorems.JustBehind` | kernel/tkernel/mempool.c:475-486 | the address just behind the pool passes the range test and is refused exactly if the flag bit of the last cell is clear, a cell of the last block |
| `ArenaTheorems.DoubleFree` | kernel/tkernel/memory.c:261-287 | freeing a free block merges nothing and ties its size chain into a loop, so that no index fits the memory any more |
| `ArenaTheorems.Oversized` | kernel/tkernel/memory.c:160-182 | for a size above MAX_ALLOCATE the search ends at the smallest free area, whatever its size |
| `MemPool.Pool.MplWakeup` | kernel/tkernel/mempool.c:194-216 | the front of the line is served in order with new, large enough blocks; the next waiter's request then exceeds every free area |
| `MemPool.FirstAskedFirstServed` | kernel/tkernel/mempool.c:194-495 | in a TA_TFIFO pool, over every run, tasks get their blocks in the order in which they asked, but for those that gave up, whatever the sizes |
| `MemPool.Pool.TkGetMpl` | kernel/tkernel/mempool.c:410-455 | exact answer: granted iff the caller is on top and something fits, best fit; otherwise error or place in the line; nobody waits who could be served; blocks of others keep their contents |
| `MemPool.Pool.TkRelMpl` | kernel/tkernel/mempool.c:460-495 | for every pointer that is refused or names a used block: E_PAR with nothing changed, or the block is free and waiters are served in order, and all blocks that stay keep their contents |
| `MemPool.Pool.MplChgPri` | kernel/tkernel/mempool.c:378-391 | the line is reordered and served from its new head |
| `MemPool.Pool.ReleaseWait` | kernel/tkernel/mempool.c:396-399 | a waiter that gives up leaves, and those behind are served |
| `WaitQueue.JoinLine` | kernel/tkernel/wait.c:124-136 | queueing keeps the line ordered, adds one waiter, and puts it first exactly if it is on top of the line |
| `WaitQueue.LeaveLine` | kernel/tkernel/wait.h:155-160 | leaving removes one waiter and keeps the order of the others |
| `WaitQueue.ReorderLine` | kernel/tkernel/wait.c:143-147 | a priority change moves one waiter and keeps the line ordered |
| `WaitQueue.LeaveUndoesJoin` | kernel/tkernel/wait.c:124-136 | leaving undoes joining |
| `WaitQueue.JoinPlace` | kernel/tkernel/wait.c:124-136 | a task joins last in order of arrival, and in order of priority behind all of its own or a higher priority and before the others; nobody else moves |
| `WaitQueue.LeaveCut` | kernel/tkernel/wait.h:155-160 | leaving cuts out one place; nobody else moves |
| `Semaphore.ServeDone` | kernel/tkernel/semaphore.c:161-184 | after a pass nobody left can be served: the head for first-served, every waiter for count-ordered |
| `Semaphore.ServeKeeps` | kernel/tkernel/semaphore.c:161-184 | a pass loses no task and no count |
| `Semaphore.ServeFront` | kernel/tkernel/semaphore.c:211-227 | first-served: exactly the front of the line is released, in order |
| `Semaphore.ServeAt` | kernel/tkernel/semaphore.c:161-184 | each waiter is served exactly if those served before it have left enough and, first-served, all before it were served |
| `Semaphore.SignalOk` | kernel/tkernel/semaphore.c:138-190 | a signal keeps count range and invariant, conserves counts, and every waiter stays or is released |
| `Semaphore.WaitOk` | kernel/tkernel/semaphore.c:247-290 | a wait keeps the invariant, takes exactly what it is granted, and adds the caller alone if it blocks |
| `Semaphore.SignalExact` | kernel/tkernel/semaphore.c:138-190 | each answer of tk_sig_sem exactly when it is given; an error changes nothing |
| `Semaphore.WaitExact` | kernel/tkernel/semaphore.c:247-290 | each answer of tk_wai_sem exactly when it is given: granted if and only if there is enough and, first-served, the caller would be first in line |
| `Semaphore.CancelOk` | kernel/tkernel/semaphore.c:233-236 | a waiter that gives up leaves nobody servable behind |
| `Semaphore.ChangePriorityOk` | kernel/tkernel/semaphore.c:195-228 | a priority change leaves nobody servable and conserves counts |
| `Semaphore.GivingUpUndoesWaiting` | kernel/tkernel/semaphore.c:233-290 | a wait that blocked and is given up leaves the semaphore as it was |
| `Semaphore.EveryRun` | kernel/tkernel/semaphore.c:138-290 | over every run of calls: 0 <= count <= max, counts given equal counts held plus handed out, nobody waits who could be served |
| `Semaphore.FirstServed` | kernel/tkernel/semaphore.c:138-290 | with TA_TFIFO and TA_FIRST, over every run, tasks are served in the order in which they came, but for those that gave up |
| `Semaphore.SignalUnit` | kernel/tkernel/semaphore.c:138-190 | for requests of one: overflow exactly at the maximum, else the first waiter or the count gets it |
| `Semaphore.SemControl.TkSigSem` | kernel/tkernel/semaphore.c:138-190 | the loop with its early exits computes the pass, answer and new state |
| `Semaphore.SemControl.FreeWaiters` | kernel/tkernel/semaphore.c:161-184 | breaking out at an unservable head or a used-up count loses nothing |
| `Semaphore.SemControl.ServeHeads` | kernel/tkernel/semaphore.c:207-227 | the loop of sem_chg_pri computes the first-served pass |
| `Semaphore.SemControl.TkWaiSem` | kernel/tkernel/semaphore.c:247-290 | answer and new state |
| `Semaphore.SemControl.ReleaseWait` | kernel/tkernel/semaphore.c:233-236 | new state after a timeout or forced release |
| `Semaphore.SemControl.SemChgPri` | kernel/tkernel/semaphore.c:195-228 | new state after a priority change |
| `EventFlag.CondMonotone` | kernel/tkernel/eventflag.h:45-52 | a condition that fails still fails with fewer bits |
| `EventFlag.CondIs` | kernel/tkernel/eventflag.h:45-52 | the release condition holds if and only if all requested bits are set (AND), or one is (OR) |
| `EventFlag.SweepDone` | kernel/tkernel/eventflag.c:155-180 | after the release loop no waiter's condition holds; every released task was told a pattern that met its condition |
| `EventFlag.SweepEmpty` | kernel/tkernel/eventflag.c:170-178 | the early exits on an empty pattern lose nobody |
| `EventFlag.SweepExact` | kernel/tkernel/eventflag.c:155-180 | without clearing waiters exactly those are released whose request is met: all bits set (AND), or one (OR) |
| `EventFlag.SweepBits` | kernel/tkernel/eventflag.c:155-180 | every released task was told the bits that those released before it had left, and they satisfy its request; what stays set is what no released task took away |
| `EventFlag.SweepAt` | kernel/tkernel/eventflag.c:155-180 | each waiter is released exactly if its request is met by the bits that those released before it have left |
| `EventFlag.NobodyMet` | kernel/tkernel/eventflag.c:133-281 | between calls every AND waiter misses a bit and every OR waiter misses all |
| `EventFlag.SetOk` | kernel/tkernel/eventflag.c:133-186 | setting keeps the invariant; every waiter stays or is released with a pattern that met its condition |
| `EventFlag.WaitOk` | kernel/tkernel/eventflag.c:231-281 | waiting keeps the invariant, adds the caller alone if it blocks, and reports a pattern that meets its condition if not |
| `EventFlag.WaitExact` | kernel/tkernel/eventflag.c:231-281 | each answer of tk_wai_flg exactly when it is given, in bits: success if and only if the request is met, and then exactly the bits it takes are cleared |
| `EventFlag.GivingUpUndoesWaiting` | kernel/tkernel/eventflag.c:231-281 | a wait that blocked and is given up leaves the flag as it was |
| `EventFlag.EveryRun` | kernel/tkernel/eventflag.c:133-281 | over every run no waiter's condition holds between calls, and without TA_WMUL one task waits at most |
| `EventFlag.FlagControl.TkSetFlg` | kernel/tkernel/eventflag.c:133-186 | released tasks, each with a pattern that holds all bits it asked for (AND) or one of them (OR), and the new state |
| `EventFlag.FlagControl.FreeWaiters` | kernel/tkernel/eventflag.c:155-180 | the loop with both early exits computes the full sweep |
| `EventFlag.FlagControl.TkClrFlg` | kernel/tkernel/eventflag.c:191-209 | new pattern, invariant kept |
| `EventFlag.FlagControl.TkWaiFlg` | kernel/tkernel/eventflag.c:231-281 | exact answer, pattern reported, which meets the request bit by bit, and new state |
| `FastLock.MutualExclusion` | lib/libtk/fastlock.c:54-69 | in every interleaving of any number of threads without forced release one at most is in the critical section |
| `FastLock.NeverOverflows` | lib/libtk/fastlock.c:64-69 | the semaphore of maximum 1 is then never signalled beyond it |
| `FastLock.NoLostWakeup` | lib/libtk/fastlock.c:54-69 | in every interleaving, forced releases included, a blocked thread implies a holder or a thread about to signal |
| `FastLock.SeeksUntilInside` | lib/libtk/fastlock.c:54-59 | over every run a thread that has to wait in Lock leaves it for the critical section only |
| `FastLock.SleeperReached` | lib/libtk/fastlock.c:54-59 | while one thread is in the critical section another that calls Lock does come to sleep |
| `FastLock.Quiescent` | lib/libtk/fastlock.c:32-69 | when all threads have left, without forced release, counter and semaphore are as created |
| `FastLock.ForcedReleaseBreaksExclusion` | lib/libtk/fastlock.c:54-59 | from a forced release of a blocked thread, in every state of every run, a run without further forced release leads to two threads in the critical section |
| `FastLock.ExclusiveIff` | lib/libtk/fastlock.c:54-69 | with two threads or more exclusion is guaranteed for all continuations exactly if there is no token too many |
| `FastLock.ExclusionExactlyIfUnforced` | lib/libtk/fastlock.c:54-69 | along a run from the creation exclusion is guaranteed at every point if and only if no blocked thread was released by force |
| `FastLock.RunKeeps` | lib/libtk/fastlock.c:32-69 | over every run the counter counts those inside, and the tokens beyond the one that is due are the forced releases less the signals lost to a full semaphore |
| `FastMLock.MutualExclusion` | lib/libtk/fastmlock.c:77-98 | in every interleaving each of the 32 bits is held by one thread at most |
| `FastMLock.NoLostWakeup` | lib/libtk/fastmlock.c:77-122 | a clear bit with a blocked waiter implies a thread about to test the bit or an unlocker still to announce it |
| `FastMLock.ZeroMeansNobody` | lib/libtk/fastmlock.c:113-122 | an unlocker that reads a waiter count of zero leaves nobody in the lock routine |
| `FastMLock.SeeksOn` | lib/libtk/fastmlock.c:77-98 | a thread that finds its bit set asks the event flag, sleeps if the flag does not have the bit, and looks again when released; only a clear bit gives it the lock, and without a timeout tk_wai_flg never turns it away |
| `FastMLock.SeeksUntilDecided` | lib/libtk/fastmlock.c:77-98 | over every run MLockTmo comes to an end only with the lock, with an error of tk_wai_flg, or by timeout or forced release |
| `FastMLock.SleeperReached` | lib/libtk/fastmlock.c:77-98 | while one thread holds a bit another that asks for it does come to sleep |
| `FastMLock.SetOne` | kernel/tkernel/eventflag.c:133-186 | announcing a bit releases the first waiter for it, who consumes it; without one the bit stays in the flag |
| `FastMLock.RunKeeps` | lib/libtk/fastmlock.c:32-122 | bits equal holders, the waiter count equals the threads in the lock routine, sought bits are attended, priority changes of blocked threads included |
| `FastMLock.NewPriorityKeeps` | kernel/tkernel/wait.c:143-147 | a priority change of a blocked thread reorders the line and loses nobody |
| `ShimRing.PushContents` | components/freertos_shim/shim_queue.c:110-126 | a push is refused exactly when cap - 1 items are queued; an accepted item goes last; overwriting drops the oldest |
| `ShimRing.PopContents` | components/freertos_shim/shim_queue.c:129-139 | a pop takes the oldest item |
| `ShimRing.Buffer.QueuePush` | components/freertos_shim/shim_queue.c:110-126 | the array version: contents before and after |
| `ShimRing.Buffer.QueuePop` | components/freertos_shim/shim_queue.c:129-139 | the array version: item returned and contents left |
| `ShimRing.Buffer.QueuePeek` | components/freertos_shim/shim_queue.c:509-552 | the oldest item, unchanged contents |
| `ShimRing.Buffer.Counts` | components/freertos_shim/shim_queue.c:557-586 | messages waiting is the number of items, spaces the rest up to cap - 1 |
| `ShimQueue.Fifo` | components/freertos_shim/shim_queue.c:87-139 | in every interleaving of senders, overwriters, receivers, peekers and handlers, items accepted are items gone followed by items queued, at most len - 1 |
| `ShimQueue.ReceiveExact` | components/freertos_shim/shim_queue.c:371-384 | an attempt to receive takes the oldest item; with none, a call that may block goes on to the semaphore with all else unchanged, and another ends |
| `ShimQueue.PeekExact` | components/freertos_shim/shim_queue.c:525-540 | the same for a peek, which leaves the item |
| `ShimQueue.SendExact` | components/freertos_shim/shim_queue.c:314-327 | the same for a send, which is fruitless exactly if len - 1 items are queued and it does not overwrite; overwriting drops the oldest |
| `ShimQueue.BlocksUntilDecided` | components/freertos_shim/shim_queue.c:305-384 | over every run a call that may block ends only after an attempt that did its work, an error of the semaphore, or a release of its wait |
| `ShimQueue.ReceiverSleeps` | components/freertos_shim/shim_queue.c:371-384 | receivers and peekers of an empty queue do come to sleep |
| `ShimQueue.SenderSleeps` | components/freertos_shim/shim_queue.c:314-327 | and so do senders to a full one |
| `ShimQueue.NoStuckReceiver` | components/freertos_shim/shim_queue.c:371-384 | beside a blocked receiver, items never exceed released receivers that have yet to look plus signals to come |
| `ShimQueue.NoStuckSender` | components/freertos_shim/shim_queue.c:314-327 | the dual for free places and blocked senders |
| `ShimQueue.SideSignal` | components/freertos_shim/shim_queue.c:124-137 | an overflow of the notification semaphore is harmless |
| `ShimQueue.RunKeeps` | components/freertos_shim/shim_queue.c:525-540 | at every instant items are bounded by count, released and signalling threads, peekers included, and so are free places |
| `ShimQueue.LengthOneHoldsNothing` | components/freertos_shim/shim_queue.c:110-126 | a queue of length 1 never holds an item, not even by overwriting |
| `ShimQueue.FrontGoesLast` | components/freertos_shim/shim_queue.c:305-327 | a send to the front is refused when full and otherwise goes last; it is first exactly if all items queued equal it |
| `MessageRing.HeaderLength` | kernel/tkernel/messagebuf.h:58-62 | a header gives back the length it was made from |
| `MessageRing.EncodesUnique` | kernel/tkernel/messagebuf.c:345-375 | the bytes determine the messages |
| `MessageRing.AdmissionSuffices` | kernel/tkernel/messagebuf.h:68-71 | testing the unrounded size admits exactly the messages whose rounded size fits |
| `MessageRing.Accounts` | kernel/tkernel/messagebuf.h:68-79 | free space is the buffer less what the messages take, never negative; empty exactly if equal to the buffer size |
| `MessageRing.StoredBehind` | kernel/tkernel/messagebuf.c:59-86 | seen from the head, a store writes header and message behind what is used, across both wraps |
| `MessageRing.StoreStep` | kernel/tkernel/messagebuf.c:59-86 | a store appends the message to the sequence the bytes represent |
| `MessageRing.LoadStep` | kernel/tkernel/messagebuf.c:345-375 | a load returns the first message of that sequence and leaves the rest |
| `MessageRing.ByteRing.MsgToMbf` | kernel/tkernel/messagebuf.c:59-86 | the byte array then represents the messages with the new one last |
| `MessageRing.ByteRing.MbfToMsg` | kernel/tkernel/messagebuf.c:345-375 | the first message comes out, the others stay |
| `MessageBuffer.WakeupOk` | kernel/tkernel/messagebuf.c:94-110 | waking senders moves their messages into the buffer without changing the pending sequence; the first sender left does not fit |
| `MessageBuffer.WakeupFront` | kernel/tkernel/messagebuf.c:94-110 | the senders woken are the front of their line, with their messages stored in order |
| `MessageBuffer.SendInOrder` | kernel/tkernel/messagebuf.c:282-336 | a task's message goes behind all pending ones, or to a receiver only if there is none |
| `MessageBuffer.SendInserts` | kernel/tkernel/messagebuf.c:282-336 | in any order and from any context an accepted message is put among the pending ones, behind the stored ones, and no other message moves |
| `MessageBuffer.SendExact` | kernel/tkernel/messagebuf.c:282-336 | each answer of tk_snd_mbf exactly when it is given; a receiver is served if one waits, and then the first in line |
| `MessageBuffer.GivingUpUndoesSending` | kernel/tkernel/messagebuf.c:268-336 | a send that blocked and is given up leaves the buffer as it was |
| `MessageBuffer.ReceiveOk` | kernel/tkernel/messagebuf.c:380-431 | a receiver gets the first pending message, wherever it is |
| `MessageBuffer.ReceiveFrees` | kernel/tkernel/messagebuf.c:380-431 | the senders a receive releases are the front of their line |
| `MessageBuffer.ReleaseSenderOk` | kernel/tkernel/messagebuf.c:268-271 | a sender that gives up takes only its own message with it |
| `MessageBuffer.ChangePriorityOk` | kernel/tkernel/messagebuf.c:250-263 | reordering senders keeps the invariant |
| `MessageBuffer.EveryRun` | kernel/tkernel/messagebuf.c:282-431 | over every run, handler sends and priority order included: a waiting receiver implies nothing is pending, the first waiting sender never fits |
| `MessageBuffer.OneFifo` | kernel/tkernel/messagebuf.c:282-431 | where only tasks send and no sender gives up, messages received are messages sent, in order, and the rest is pending |
| `MessageBuffer.OneStream` | kernel/tkernel/messagebuf.c:268-431 | with senders in arrival order, over every run, handlers that send and senders and receivers that give up included: messages received and then those pending are the messages kept, in order; a sender that gives up takes its last message back, a handler's goes before those that still wait |
| `MessageBuffer.ReceiversInOrder` | kernel/tkernel/messagebuf.c:282-431 | over every run the messages received go, one by one, to those that came to receive and did not give up, in the order in which they came; the others still wait in that order |
| `MessageBuffer.HandlerKeepsOrder` | kernel/tkernel/messagebuf.c:305-317 | a handler's send keeps the order of sending exactly if no sender waits or the message does not fit |
| `MessageBuffer.MbfControl.TkSndMbf` | kernel/tkernel/messagebuf.c:282-336 | answer, new state, and the receiver served, which is the first in line, over the byte ring |
| `MessageBuffer.MbfControl.TkRcvMbf` | kernel/tkernel/messagebuf.c:380-431 | message and new state, over the byte ring |
| `MessageBuffer.MbfControl.MbfWakeup` | kernel/tkernel/messagebuf.c:94-110 | the loop computes the wakeup, over the byte ring |
| `MessageBuffer.MbfControl.MbfChgPri` | kernel/tkernel/messagebuf.c:250-263 | new state after a priority change |
| `MessageBuffer.MbfControl.ReleaseWait` | kernel/tkernel/messagebuf.c:268-271 | new state after a sender gave up |
| `Timer.KeyIsDistance` | kernel/tkernel/timer.c:70-81 | within sight, the 32-bit key is the distance of the unwrapped times, across any number of wraps |
| `Timer.ReachedIsPast` | kernel/tkernel/timer.h:54-57 | within sight, the 32-bit test says that the unwrapped time has come |
| `Timer.ReachedExactly` | kernel/tkernel/timer.h:54-57 | up to 2^32 ahead, the test is wrong exactly for times more than 2^31 ahead, which count as reached |
| `Timer.MeantExactly` | kernel/tkernel/timer.c:70-81 | a time up to 2^32 ahead is queued as itself exactly if it is at most 2^31 ahead, and as a time in the past otherwise |
| `Timer.Stalled` | kernel/tkernel/timer.c:169-180 | an event 2^31 + 1 ahead goes to the head of the queue and holds up all events behind it for 2^31 ticks |
| `Timer.FireDone` | kernel/tkernel/timer.c:169-180 | a tick leaves nothing due, overdue events included, fires only what is due, and keeps order and range whatever callbacks do |
| `Timer.FireOne` | kernel/tkernel/timer.c:169-180 | an event no callback touches is fired in a tick exactly if it is due |
| `Timer.FireInOrder` | kernel/tkernel/timer.c:169-180 | without interference exactly the due events are fired, in queue order, so ties in insertion order |
| `Timer.EveryRun` | kernel/tkernel/timer.c:146-185 | over every run the queue stays sorted and within 2^31 ahead, and an event fires at its time and at no other |
| `Timer.FiresWhenDue` | kernel/tkernel/timer.c:146-185 | an event nobody touches is queued until its time and is fired then |
| `Timer.WaitEnds` | kernel/tkernel/timer.c:97-110 | a wait of d below 2^31 ends at tick d + 1, not earlier and not later |
| `Timer.FiresFirst` | kernel/tkernel/timer.c:69-80 | over every run, of two queued events that nobody sets again or cancels the one ahead in the queue fires first |
| `Timer.SetFirstFiresFirst` | kernel/tkernel/timer.c:69-80 | an event set for the same time as one already queued, or for a later one, fires after it |
| `Timer.TimerQueue.EnqueueTmeb` | kernel/tkernel/timer.c:70-81 | in every queue, in order or not, the word-compared scan inserts before the first event that is due later |
| `Timer.TimerQueue.TimerInsert` | kernel/tkernel/timer.c:97-110 | queued for tmout + 1 ticks ahead, or not at all for TMO_FEVR |
| `Timer.TimerQueue.TimerInsertAbs` | kernel/tkernel/timer.c:129-135 | for every word: queued for the one time within sight that the word means |
| `Timer.TimerQueue.TimerDelete` | kernel/tkernel/timer.h:92-95 | removes the event alone |
| `Timer.TimerQueue.TimerHandler` | kernel/tkernel/timer.c:146-185 | for every queue, overdue events and those that time has left out of sight included: the loop terminates and fires what the specification of a tick says |
| `Cyclic.NextActivation` | kernel/tkernel/time_calls.h:48-61 | the next activation is the least later time a whole number of periods after the last one, computed without overflow and within sight of the queue |
| `Cyclic.NextOnTime` | kernel/tkernel/time_calls.c:185-194 | a handler called at its time is due exactly one period later |
| `Cyclic.CyclicHandler` | kernel/tkernel/time_calls.c:185-194 | over every trace, with the time computed in words by knl_cyc_next_time, a handler that stays started fires at due, due + tim, due + 2 tim, ... and is queued for the next of them |
| `Cyclic.RestartedFires` | kernel/tkernel/time_calls.c:349-366 | a handler started without TA_PHS, running or not, fires one period and a tick later and every period after that |
| `Cyclic.ContinuedFires` | kernel/tkernel/time_calls.c:338-348 | a stopped handler started again with TA_PHS fires at the time at which it goes on and every period after that |
| `Cyclic.StoppedIsSilent` | kernel/tkernel/time_calls.c:376-400 | over every trace a stopped handler is not fired until it is started again, and keeps the time at which it was due |
| `Cyclic.FiresForever` | kernel/tkernel/time_calls.c:185-194 | the n-th activation is fired at its time |
| `Cyclic.KeepsPhase` | kernel/tkernel/time_calls.c:185-194 | the handler is always queued for the first activation still to come |
| `Cyclic.FirstActivation` | kernel/tkernel/time_calls.c:254-270 | the phase is not checked: over all runs of calls and ticks up to the first activation every tick fires all that is due and the handler is fired at its time and not before, if and only if the phase is less than 2^31 |
| `Cyclic.StartFar` | kernel/tkernel/time_calls.c:254-270 | with a phase above 2^31 the handler is fired at the next tick, whatever is called back |
| `Cyclic.HeldUp` | kernel/tkernel/timer.c:169-180 | with a phase of 2^31 no event that is queued, or that a call sets before the next tick, is fired for 2^31 ticks |
| `Cyclic.ContinuedAt` | kernel/tkernel/time_calls.c:338-348 | a handler started again with TA_PHS goes on at the time its word stands for, or at the least later one a whole number of periods after it |
| `Cyclic.PhaseKeptIff` | kernel/tkernel/time_calls.c:338-348 | that keeps the phase if and only if the period divides the whole words by which the old time is misread; there are none if it is less than 2^31 ticks ago and at most 2^31 ahead |
| `Cyclic.PhaseLost` | kernel/tkernel/time_calls.c:338-348 | a handler with period 3 that was stopped for 2^31 ticks goes on out of phase |
| `Cyclic.PhaseKeptExactly` | kernel/tkernel/time_calls.c:320-392 | over every run of ticks, calls, stops and continuations the phase is kept at every step exactly if no continuation comes too late |
| `Cyclic.FiredInPhase` | kernel/tkernel/time_calls.c:320-392 | and then the handler is fired only at times in phase with the first |
| `Tick.QueryExact` | kernel/sysdepend/cpu/core/riscv_esp/sys_timer.c:140-170 | exactly the missed periods are credited, up to one second, the reference never passes the counter, and credited plus slipped periods are exact if and only if fewer than 2^32 were missed |
| `Tick.EveryTickAccounted` | kernel/sysdepend/cpu/core/riscv_esp/sys_timer.c:140-170 | over every sequence of early, late or missed interrupts credited plus slipped periods equal the counter divided by the period exactly if never 2^32 periods or more went by between two queries |
| `Tick.SystemTimer.ElapsedPeriods` | kernel/sysdepend/cpu/core/riscv_esp/sys_timer.c:140-170 | periods returned, reference, and the wrapping slip counter |
| `Tick.SystemTimer.SystimInthdr` | kernel/sysdepend/cpu/core/riscv_esp/interrupt.c:264-286 | kernel time advances by exactly the credited periods; the timer queue is what as many ticks in a row leave, and the events of each tick are those it fires |
| `Rendezvous.NoMissedMeeting` | kernel/tkernel/rendezvous.c:162-318 | over every run no caller and acceptor with overlapping patterns wait at the same port |
| `Rendezvous.NumbersNameCallers` | kernel/tkernel/rendezvous.h:51-67 | over every run open rendezvous numbers are pairwise different and each names its caller |
| `Rendezvous.LimitNeverGrows` | kernel/tkernel/rendezvous.c:324-420 | along every run the limit of the reply to a caller never grows, however often the call is forwarded |
| `Rendezvous.LaterDiffers` | kernel/tkernel/rendezvous.h:51-59 | a task's numbers repeat after 65536 rendezvous and not before |
| `Rendezvous.StaleRefused` | kernel/tkernel/rendezvous.c:426-462 | a number 1 to 65535 rendezvous old is refused and changes nothing |
| `Rendezvous.OutlivesPort` | kernel/tkernel/rendezvous.c:129-156 | an open rendezvous outlives the deletion of ports: its reply reaches the caller as before |
| `Rendezvous.CallerMoves` | kernel/tkernel/rendezvous.c:59-65 | a caller waiting at a TA_TPRI port whose priority changes gets its new place in line, and nothing else changes |
| `Rendezvous.CallAnswers` | kernel/tkernel/rendezvous.c:162-238 | each answer of tk_cal_por exactly when it is given; the acceptor met is the first in line whose pattern overlaps, and gets the message and a number that names the caller |
| `Rendezvous.AcceptAnswers` | kernel/tkernel/rendezvous.c:246-318 | each answer of tk_acp_por exactly when it is given; the caller accepted is the first in line whose pattern overlaps, with its own message and a number that names it |
| `Rendezvous.ForwardAnswers` | kernel/tkernel/rendezvous.c:324-420 | tk_fwd_por goes through exactly for an open rendezvous and a port that allows no longer replies, if the message suits the port and the caller; otherwise nothing changes |
| `Rendezvous.LastMessageArrives` | kernel/tkernel/rendezvous.c:162-420 | over every run an acceptor, waiting or not, gets the message sent last, by call or forward, for the task its number names |
| `Rendezvous.CallAcceptReply` | kernel/tkernel/rendezvous.c:162-462 | call and accept: the acceptor gets the message and a number that names the caller; a reply up to the port's limit, and no longer one, reaches the caller, after which all else is as before and the number is dead |
| `Rendezvous.CallMeetsAcceptor` | kernel/tkernel/rendezvous.c:191-224 | the same where an acceptor waits: the first that can be met gets message and number, waits no more, and the reply limit is the port's, no less |
| `Rendezvous.ForwardAcceptReply` | kernel/tkernel/rendezvous.c:324-420 | an open rendezvous forwarded and accepted elsewhere: the acceptor gets the new message and a new number that names the first caller, whom its reply reaches; the old number is dead at once |
| `Rendezvous.ForwardMeetsAcceptor` | kernel/tkernel/rendezvous.c:371-396 | the same where an acceptor waits at the second port |
| `Rendezvous.CallForwardReply` | kernel/tkernel/rendezvous.c:162-462 | a whole rendezvous: call, accept, forward of another message, accept at the second port, reply to the first caller |
| `Rendezvous.EveryRun` | kernel/tkernel/rendezvous.c:79-462 | every run of the six calls keeps lines, control blocks and numbers consistent |
| `Rendezvous.PortKernel.TkCrePor` | kernel/tkernel/rendezvous.c:79-123 | exact answer; a new port has empty lines |
| `Rendezvous.PortKernel.TkDelPor` | kernel/tkernel/rendezvous.c:129-156 | exact answer; the port is gone and all its waiters are released, everything else as before |
| `Rendezvous.PortKernel.TkCalPor` | kernel/tkernel/rendezvous.c:162-238 | outcome and new state; the first acceptor that matches is met and gets the message |
| `Rendezvous.PortKernel.TkAcpPor` | kernel/tkernel/rendezvous.c:246-318 | outcome and new state; the first caller that matches is accepted |
| `Rendezvous.PortKernel.TkFwdPor` | kernel/tkernel/rendezvous.c:324-420 | outcome and new state in every error and success case; the message goes with the call, to a waiting acceptor or into the line |
| `Rendezvous.PortKernel.TkRplRdv` | kernel/tkernel/rendezvous.c:426-462 | outcome and new state |
| `Rendezvous.PortKernel.GenRdvno` | kernel/tkernel/rendezvous.h:51-59 | the number issued and the next one |
| `Rendezvous.PortKernel.Search` | kernel/tkernel/rendezvous.c:191-198 | the first match, or the end of the line |
| `ReadyQueue.ChosenIsBest` | kernel/tkernel/ready_queue.h:84-92 | the chosen task is first of the highest priority in use |
| `ReadyQueue.RdyQue.CalcTopPriority` | kernel/tkernel/ready_queue.h:54-62 | the first marked priority from a position on |
| `ReadyQueue.RdyQue.Insert` | kernel/tkernel/ready_queue.h:109-129 | appended to its ring; bitmap and top priority stay exact; tells whether the top moved |
| `ReadyQueue.RdyQue.Delete` | kernel/tkernel/ready_queue.h:162-202 | removed from its ring; bitmap and top priority stay exact |
| `ReadyQueue.RdyQue.MakeReady` | kernel/tkernel/task.c:118-124 | the task to run is again the head of the first ring in use |
| `ReadyQueue.RdyQue.MakeNonReady` | kernel/tkernel/task.c:133-139 | the same when a task leaves |
| `ReadyQueue.RdyQue.ChangePriority` | kernel/tkernel/task.c:148-159 | the same when a ready task changes priority |
| `ReadyQueue.RdyQue.Rotate` | kernel/tkernel/task.c:174-178 | the head goes last, and the task to run is again the right one |
| `ReadyQueue.RdyQue.RotateRun` | kernel/tkernel/task.c:183-190 | the ring of the running priority is rotated |
| `Tasks.StateSaysWhere` | kernel/tkernel/wait.h:143-160 | a task is in a ready ring iff ready and of that priority, in a wait ring iff it waits for that object |
| `Tasks.ChosenRuns` | kernel/tkernel/task.c:118-139 | the task to run is ready and no ready task has a higher priority |
| `Tasks.ResumeUndoesSuspend` | kernel/tkernel/task_sync.c:28-117 | resuming restores every control block and wait ring; a task that was ready is then last in its ready ring, so the rings are restored exactly if it was not ready or was last |
| `Tasks.ReleaseUndoesWait` | kernel/tkernel/wait.h:155-160 | a wait that is released restores the wait rings, whoever else waits there, and leaves the task last in its ready ring |
| `Tasks.WakeupEndsSleep` | kernel/tkernel/task_sync.c:176-235 | a sleep ended by a wakeup leaves the task ready, last in its ring, no wakeup pending, and all else as before |
| `Tasks.WakeupBeforeSleep` | kernel/tkernel/task_sync.c:176-235 | a wakeup before the sleep is not lost: the sleep ends at once, and all is as before |
| `Tasks.WaitLeavesRest` | kernel/tkernel/wait.h:143-160 | a wait that is over has changed the links and what was waited for alone, and a task suspended during it comes out suspended |
| `Tasks.SuspensionsNest` | kernel/tkernel/task_sync.c:28-162 | suspensions nest: each resumption takes back one, the task stays suspended until the last, and a forced one takes back all at once |
| `Tasks.RestartIsFresh` | kernel/tkernel/task_manage.c:169-218 | a task terminated in whatever state and started again has its initial priority, no suspension and no wakeup left, waits nowhere and is last in its ready ring |
| `Tasks.TaskKernel.MakeReady` | kernel/tkernel/task.c:118-124 | state, ring and schedule agree after a task became ready, last in its ring |
| `Tasks.TaskKernel.MakeNonReady` | kernel/tkernel/task.c:133-139 | the node leaves the ring it is in |
| `Tasks.TaskKernel.MakeWait` | kernel/tkernel/wait.c:65-91 | a running or suspended task waits: at its place in the ring of its object or linked to itself, timer queued iff the timeout is finite |
| `Tasks.TaskKernel.QueInsertWait` | kernel/tkernel/wait.c:124-136 | the node is in the wait ring of its object, behind all of its own or higher priority or at the end, and the ring stays in order |
| `Tasks.PutInOrder` | kernel/tkernel/wait.h:78-96 | a ring in order of priority stays so when a task joins at the place the search finds |
| `Tasks.JoinPlace` | kernel/tkernel/wait.c:124-136 | a task joins a wait ring last in order of arrival, and in order of priority behind all of its own or a higher priority and before the others |
| `Tasks.TaskKernel.SearchTpri` | kernel/tkernel/wait.h:89-93 | the search finds the position before the first task of lower priority |
| `Tasks.TaskKernel.Reposition` | kernel/tkernel/wait.c:143-147 | a waiting task whose priority changed is placed anew and the ring stays in order |
| `Tasks.TaskKernel.QueRemove` | include/sys/queue.h:71-77 | called only on a node linked to a ring or to itself |
| `Tasks.TaskKernel.TimerDelete` | kernel/tkernel/timer.h:92-95 | called only on a timer block that is queued or linked to itself |
| `Tasks.TaskKernel.WaitCancel` | kernel/tkernel/wait.h:49-53 | the task is out of ring and timer queue |
| `Tasks.TaskKernel.WaitRelease` | kernel/tkernel/wait.h:155-160 | the task is out of its wait ring and ready, last in its ring, or suspended if it was suspended too |
| `Tasks.TaskKernel.Timeout` | kernel/tkernel/wait.c:43-50 | the same on timeout, with the timer block already out of its queue |
| `Tasks.TaskKernel.TkSusTsk` | kernel/tkernel/task_sync.c:28-70 | exact answer, E_CTX included, and new state with the ready rings; suspend count positive iff a suspend state |
| `Tasks.TaskKernel.Resume` | kernel/tkernel/task_sync.c:77-162 | exact answer and new state of tk_rsm_tsk and tk_frsm_tsk; a task that becomes ready goes last in its ring |
| `Tasks.TaskKernel.TkSlpTsk` | kernel/tkernel/task_sync.c:176-201 | a pending wakeup is consumed, else poll fails or the task sleeps |
| `Tasks.TaskKernel.TkWupTsk` | kernel/tkernel/task_sync.c:208-235 | a sleeping task is released, else the wakeup is counted up to the limit |
| `Tasks.TaskKernel.TkDlyTsk` | kernel/tkernel/task_sync.c:279-298 | the task waits, linked to itself, with its timer queued |
| `Tasks.TaskKernel.TkRelWai` | kernel/tkernel/task_manage.c:463-483 | exact answer and new state |
| `Tasks.TaskKernel.TkStaTsk` | kernel/tkernel/task_manage.c:169-191 | exact answer and new state |
| `Tasks.TaskKernel.Terminate` | kernel/tkernel/task_manage.c:197-218 | the task is in no ring and no timer queue, dormant with initial values; the rings lose it and nothing else |
| `Tasks.TaskKernel.TkCreTsk` | kernel/tkernel/task_manage.c:38-133 | E_LIMIT changing nothing if no control block is free; otherwise a new dormant task with its initial priority, and everything stays in order |
| `Tasks.TaskKernel.TkDelTsk` | kernel/tkernel/task_manage.c:140-161 | exact answer; a deleted task was in no ring |
| `Tasks.TaskKernel.ChangeTaskPriority` | kernel/tkernel/task.c:144-169 | a ready task goes last in the ring of the new priority, even if that is the old one; a task in a priority-ordered wait ring is placed anew; all else is as before |
| `Dispatcher.EveryRun` | kernel/sysdepend/cpu/core/riscv_esp/cpu_cntl.c:167-214 | every well-nested run keeps nesting counters, frames and saved contexts consistent |
| `Dispatcher.SwitchOnlyAtExit` | kernel/sysdepend/cpu/core/riscv_esp/cpu_cntl.c:167-214 | the running task changes only at an outermost exit, outside task-independent code, with dispatching enabled, to the task chosen to run |
| `Dispatcher.ExitRestores` | kernel/sysdepend/cpu/core/riscv_esp/cpu_cntl.c:167-214 | an exit restores what was interrupted, or what the task switched to had lost |
| `Dispatcher.ResumesWhatItLost` | kernel/sysdepend/cpu/core/riscv_esp/cpu_cntl.c:167-214 | over every run a task switched out resumes with exactly the stack pointer and threshold it lost |
| `Dispatcher.StartsAfresh` | kernel/tkernel/task_manage.c:245-250 | over every run a task that ended itself and is switched in again starts at the top of its stack with interrupts enabled |
| `Dispatcher.InterruptStackOnce` | components/freertos_shim/shim_stubs.c:54-76 | the interrupt stack is entered at the outermost entry only; nested entries stay below |
| `Dispatcher.DispatchSwitches` | kernel/sysdepend/cpu/core/riscv_esp/cpu_cntl.c:89-110 | knl_dispatch by a task leads, through the interrupt it requests, to the task chosen to run, with the stack pointer and threshold that task had lost |
| `Dispatcher.ForceSwitches` | kernel/sysdepend/cpu/core/riscv_esp/cpu_cntl.c:114-133 | knl_force_dispatch leads to the task to run whatever was going on, dispatching disabled or task-independent code included, and gives that task what it had lost |
| `Dispatcher.Core.RtosIntEnter` | components/freertos_shim/shim_stubs.c:54-76 | counters, saved pointer and stack pointer after entry |
| `Dispatcher.Core.RtosIntExit` | kernel/sysdepend/cpu/core/riscv_esp/cpu_cntl.c:167-214 | counters, stack pointer, threshold, running task and saved context after exit |

## Left out

- Identifier checks, creation attributes, the refusal of calls on the caller itself, E_NOEXS
  for deleted semaphores, flags, pools and message buffers, and E_CTX (modelled for
  `tk_sus_tsk` only): an instance of a class is an existing object called in a permitted
  context.
- Deleting semaphores, event flags, pools and message buffers (`knl_wait_delete` is modelled
  for mutexes and ports): every waiter is released with E_DLT.
- Mutex.Kernel.ChangeTaskPriority: does not model the ready ring of a ready task, which
  `ReadyQueue` and `Tasks` do, nor the rings of other objects a task waits for.
- Arena.Allocator.Imalloc: does not model sizes above `MAX_ALLOCATE`, where the code writes a
  header outside its memory; `WordRounding` and `Oversized` say what leads there.
- Arena.Allocator.Ifree: does not model freeing a pointer that is no block; what freeing a
  free block does is `DoubleFree`.
- Arena.Allocator.RelBlk: does not model a pointer that is no block and whose cell has the flag
  set, where the code takes client data for links.
- MemPool.Pool.TkRelMpl: as Arena.Allocator.RelBlk.
- MessageBuffer.OneFifo: does not cover handlers that send and senders that give up;
  `OneStream` does.
- Timer.TimerQueue.TimerInsert: does not model delays of 2^31 or more, which the callers
  reject.
- Tasks.TaskKernel.Terminate: does not model the release hooks of wait objects and the
  signalling of mutexes; the object modules and `Mutex` do.
- Tasks.TaskKernel.ChangeTaskPriority: does not model what the hooks of wait objects do beyond
  placing the task anew; the object modules and `Mutex` do.
- ShimQueue.Fifo: resetting and deleting a queue, which the code does without waking anybody,
  are not steps of the model.
- Dispatcher.EveryRun: stack overflow, the WFI loop of `knl_dispatch` and the assembly itself
  are not modelled; the trap code outside this repository is a push before entry, a restored
  threshold and a pop after exit.
- `knl_Icalloc`, `knl_Irealloc`, the fixed-size pool, mailboxes and kernel object locks.
- `tk_ref_*`, debugger support and object names: read-only copies.
- Alarm handlers beyond their timer events, and `tk_can_wup`.
- The shim's notifications, timers, event groups, semaphores and recursive mutexes.
- WiFi, BLE, networking, register-level drivers and device management.
