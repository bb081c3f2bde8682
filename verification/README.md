# YAOS2 in Dafny

YAOS2 is a small SMP x86 kernel with its own libc. This project models the parts of it whose correctness
rests on several functions at once, and proves what they keep over every run. Concurrent protocols are state
machines whose steps are critical sections or single memory accesses; what the code does by changing things
in place is a class, each of whose methods is proved against a specification. The `...Calls` modules state
the protocols from the caller's side: what a call, made with its arguments at one step of a run, has come to
at a later one.

* **Scheduler** (`SchedulerSpec`, `SchedulerProofs`, `SchedulerRuns`, `SchedulerCalls`, `Scheduler`,
  `IntrusiveLists`): one run queue, per-process thread lists and per-CPU current threads, one critical
  section of the global lock at a time, over the intrusive queue of threads and the intrusive list of
  processes.
* **Thread mutex and condition** (`ThreadMutex`, `ThreadMutexCalls`): one lock operation at a time, with the
  global lock handed from a blocking thread to the scheduler loop and back.
* **CPU spinlock** (`Spinlock`, `SpinlockInterrupts`, `SpinlockCalls`): one memory access at a time, with
  nesting, interrupts, preemption counters and context switches.
* **Frames, page tables, processes** (`Pages`, `AddressSpaces`, `FreeList`, `PagingSteps`, `Paging`,
  `ProcessMemory`): over the bytes of physical memory. Every frame has one owner; the flat virtual memory of
  a directory is a map from addresses to bytes.
* **TLB shootdown** (`TlbShootdown`): CPUs that fill and drop translations, switch CR3, go inactive and send
  flush interrupts, one access at a time.
* **Heaps** (`HeapBlocks`, `KernelHeap`, `LibcHeap`): the block list both heaps keep, kernel pages mapped as
  the heap grows, and malloc over the break of `ProcessMemory`.
* **Block cache** (`BlockCache`): lock, read and unlock by any number of threads.
* **Open files and FAT nodes** (`Eviction`, `FatNodes`, `OpenFiles`, `FileCalls`): descriptors, calls in
  flight, files and the nodes they pin. `Eviction` is the victim search both caches make.
* **FAT directories** (`FatEntries`, `FatLeaves`): long names, and the index of the first 16 entries.
* **libc** (`Stream`, `Convert`): buffered output, and the number printer and parser.

Where the code does something a reader may not expect, the model does the same: `unsafe_brk` compares the
whole break with the free memory and counts no page tables; `spin_interruptible` turns interrupts on even
under a push; a context that was switched away comes back with its saved int_enabled for an interrupt flag;
a name byte behind a NUL stays in a FAT short name; a zeroed block slot answers to block 0 of drive 0;
`kfree` refuses the address of an empty block at the very end of the heap region; `kalloc` and `malloc`
check no sum for wrap-around.

## Model

| member | source | states |
|---|---|---|
| SchedulerRuns.EachThreadInOnePlace | kernel/arch/i386/scheduler.c:57-306 | after every critical section of every run each live thread is once in the run queue, current on exactly one CPU, or parked, as its state says; queue and CPUs name live threads only |
| SchedulerRuns.FreedThreadIsNowhere | kernel/arch/i386/scheduler.c:129-149 | only an EXITED thread at the head of the queue is freed, and it is then neither queued nor current |
| SchedulerRuns.NoChildIsMissed | kernel/arch/i386/scheduler.c:80-122 | between critical sections no thread is WAITING while its process has a DEFUNCT child |
| SchedulerRuns.WaitReturnsCollectedChild | kernel/arch/i386/scheduler.c:573-612 | every return of proc_wait is the pid and exit status of a child of the caller that has become TRUNCATE |
| SchedulerRuns.ChildCollectedOnce | kernel/arch/i386/scheduler.c:71-78 | a TRUNCATE process stays as it is for the rest of the run, so it is collected at most once |
| SchedulerRuns.KernelProcessKept | kernel/arch/i386/scheduler.c:129-149 | the pass that frees a thread never empties the kernel process, so the assertion in destroy_thread does not fire |
| SchedulerCalls.WaitReturnsExitStatus | kernel/arch/i386/scheduler.c:550-612 | every return of proc_wait has the status of the last proc_exit made by a thread of that child, -ENOSTATUS if none was made |
| SchedulerCalls.OffThread | kernel/arch/i386/scheduler.c:283-391 | from the step of its call until it runs again a thread is EXITED for good after thread_exit and proc_exit, sleeps until the time it asked for, is BLOCKED on its condition until a notify of that condition wakes it, or waits in proc_wait until a child of its process is collected |
| SchedulerCalls.ThreadRunsAgain | kernel/arch/i386/scheduler.c:170-306 | it runs again by a pass that finds it at the head of the queue, never after an exit, only after its time, its notify or its child, and proc_wait then returns a child collected since the call |
| SchedulerCalls.PassHead | kernel/arch/i386/scheduler.c:170-281 | a pass frees an EXITED head, runs a READY one and one that has slept long enough, and sends one that has not to the tail |
| SchedulerCalls.QueueIsFair | kernel/arch/i386/scheduler.c:170-306 | over every run a queued thread is, until its turn, as many places further as threads were popped, less the threads notifies put in front |
| SchedulerCalls.TurnComes | kernel/arch/i386/scheduler.c:170-281 | a READY thread runs on the CPU of the pass that comes after as many pops as there were threads before it and threads woken since |
| SchedulerCalls.WaitAnswers | kernel/arch/i386/scheduler.c:573-612 | proc_wait answers at once exactly when the caller has a DEFUNCT child, with such a child, and otherwise leaves the caller WAITING |
| SchedulerCalls.OnlyWaitersReturn | kernel/arch/i386/scheduler.c:573-612 | only proc_wait and the pass that runs its caller again return from it |
| SchedulerCalls.LastThreadWakesParent | kernel/arch/i386/scheduler.c:80-149 | the pass that frees the last thread of a process makes every WAITING thread of its parent READY with that process |
| SchedulerCalls.ParentIsGiven | kernel/arch/i386/scheduler.c:440-465 | a process is for ever the child of the parent it was scheduled with, the kernel if none |
| SchedulerCalls.NewThread | kernel/arch/i386/scheduler.c:57-69 | a new thread is in the process it was scheduled for, READY and behind all others |
| SchedulerProofs.NotifyKeeps | kernel/arch/i386/scheduler.c:368-391 | a notify makes exactly one thread BLOCKED on the condition READY and puts it at the head of the queue if there is one, and changes nothing otherwise |
| SchedulerProofs.FindBlockedFinds | kernel/arch/i386/scheduler.c:368-391 | the search over the process and thread lists finds a blocked waiter exactly when one is listed |
| SchedulerProofs.KernelNeverEmpty | kernel/arch/i386/scheduler.c:129-149 | a CPU that destroys a thread keeps its scheduler thread in the kernel process |
| SchedulerProofs.MakeProcessDefunctKeeps | kernel/arch/i386/scheduler.c:80-122 | waking the parent's waiters, or marking the process DEFUNCT when there is none, restores the whole invariant |
| SchedulerProofs.PassKeeps | kernel/arch/i386/scheduler.c:170-281 | one turn of the scheduler loop keeps the invariant, whatever thread is popped |
| SchedulerProofs.ApplyKeeps | kernel/arch/i386/scheduler.c:37-612 | every critical section of the global lock keeps the invariant |
| SchedulerCode.Scheduler.constructor | kernel/arch/i386/scheduler.c:37-53 | the initial state, with the kernel process and no thread |
| SchedulerCode.Scheduler.InsertThread | kernel/arch/i386/scheduler.c:57-69 | the new thread is first of its process's list and last of the queue |
| SchedulerCode.Scheduler.WakeWaiters | kernel/arch/i386/scheduler.c:80-122 | the loop over the parent's threads wakes every WAITING one, in list order |
| SchedulerCode.Scheduler.MakeProcessDefunct | kernel/arch/i386/scheduler.c:80-122 | the code reaches the state of the specification |
| SchedulerCode.Scheduler.DestroyThread | kernel/arch/i386/scheduler.c:129-149 | the thread leaves its process, which becomes defunct if it was the last |
| SchedulerCode.Scheduler.Dispatch | kernel/arch/i386/scheduler.c:170-281 | the thread becomes current and comes out of the call that parked it |
| SchedulerCode.Scheduler.SchedulerPass | kernel/arch/i386/scheduler.c:170-281 | one turn of the loop refines the specification's step and keeps the invariant |
| SchedulerCode.Scheduler.Reschedule | kernel/arch/i386/scheduler.c:283-306 | the current thread goes to the tail of the queue unless it is parked, and its CPU is free |
| SchedulerCode.Scheduler.ThreadYield | kernel/arch/i386/scheduler.c:515-521 | refines the yield step and keeps the invariant |
| SchedulerCode.Scheduler.ThreadExit | kernel/arch/i386/scheduler.c:524-530 | refines the exit step and keeps the invariant |
| SchedulerCode.Scheduler.ThreadSleep | kernel/arch/i386/scheduler.c:533-546 | refines the sleep step and keeps the invariant |
| SchedulerCode.Scheduler.CondWait | kernel/arch/i386/scheduler.c:333-364 | refines the wait step and keeps the invariant |
| SchedulerCode.Scheduler.Notify | kernel/arch/i386/scheduler.c:368-391 | the two nested loops refine the notify step |
| SchedulerCode.Scheduler.ProcExit | kernel/arch/i386/scheduler.c:550-571 | refines the process exit step, whose status SchedulerCalls.WaitReturnsExitStatus follows to proc_wait, and keeps the invariant |
| SchedulerCode.Scheduler.ProcWait | kernel/arch/i386/scheduler.c:573-612 | returns at once exactly when the caller has a DEFUNCT child, with that child's status |
| SchedulerCode.Scheduler.ScheduleProc | kernel/arch/i386/scheduler.c:440-465 | the new process is linked in at the head of the process list, and its main thread is listed and queued |
| SchedulerCode.Scheduler.ScheduleKernelThread | kernel/arch/i386/scheduler.c:469-491 | the new kernel thread is listed and queued |
| SchedulerCode.Scheduler.EnterScheduler | kernel/arch/i386/scheduler.c:170-281 | the CPU gets its own scheduler thread in the kernel process |
| IntrusiveLists.TailQueue.InsertHead | kernel/include/kernel/queue.h:233-237 | the links and the last pointer represent the element followed by the old sequence, without duplicates |
| IntrusiveLists.TailQueue.InsertTail | kernel/include/kernel/queue.h:239-243 | one store through the last pointer represents the old sequence followed by the element |
| IntrusiveLists.TailQueue.RemoveHead | kernel/include/kernel/queue.h:251-254 | the links represent the sequence without its first element |
| IntrusiveLists.LinkedList.InsertHead | kernel/include/kernel/queue.h:120-125 | next and previous links represent the element followed by the old sequence |
| IntrusiveLists.LinkedList.Remove | kernel/include/kernel/queue.h:127-132 | taking an element out through its previous link leaves exactly the others, in order |
| IntrusiveLists.LinkedList.Turn | kernel/include/kernel/queue.h:134-137 | following the next links from the head visits the sequence in order, and then ends |
| ThreadMutex.MutualExclusion | kernel/arch/i386/thread_lock.c:38-125 | over every interleaving at most one thread is between acquire and release, and thread_mutex_held answers true to exactly that one |
| ThreadMutex.ReleaserHolds | kernel/arch/i386/thread_lock.c:76-92 | a thread that clears the mutex holds it, so the panics are out of reach |
| ThreadMutex.NoLostWakeup | kernel/arch/i386/thread_lock.c:38-108 | while a thread is BLOCKED on the mutex, it is locked, or a releaser has yet to notify, or a woken waiter has yet to re-test |
| ThreadMutexCalls.NotifyReachesWaiter | kernel/arch/i386/thread_lock.c:136-162 | from the calls: if one thread called thread_cond_wait(id) and gave the mutex up, the mutex was locked again, and after that another called thread_cond_notify(id), then at the scan the first is BLOCKED on id or was woken by an earlier notify of id, and while it is blocked the scan wakes a waiter on id |
| ThreadMutexCalls.WaitNeedsNotify | kernel/arch/i386/thread_lock.c:136-162 | thread_cond_wait(id) comes back only after the scan of a thread_cond_notify(id) has found its caller |
| ThreadMutexCalls.CallReturns | kernel/arch/i386/thread_lock.c:38-162 | a thread in a call is at a point of that call, and comes out of thread_mutex_acquire and thread_cond_wait with the mutex, of thread_mutex_release without it, and of thread_cond_notify as it was |
| ThreadMutexCalls.ScanOfCall | kernel/arch/i386/thread_lock.c:159-162 | every scan for a condition belongs to a thread_cond_notify of that condition |
| ThreadMutex.NotifyFindsWaiter | kernel/arch/i386/scheduler.c:333-391 | no scan falls between giving the mutex up and blocking, once the mutex was taken again |
| ThreadMutex.LockHolderCanStep | kernel/arch/i386/scheduler.c:333-391 | whenever one of the two spinlocks is held, a holder can take a step |
| ThreadMutex.ApplyKeeps | kernel/arch/i386/thread_lock.c:38-162 | every lock operation of every thread keeps the protocol's invariant |
| Spinlock.MutualExclusion | kernel/arch/i386/cpu/spinlock.c:54-133 | no two CPUs own one lock, and the fields of an owned lock name its owner and depth |
| Spinlock.HeldIsExact | kernel/arch/i386/cpu/spinlock.c:135-143 | cpu_spinlock_held returns true exactly on the CPU that owns the lock |
| Spinlock.OnlyOutermostOpens | kernel/arch/i386/cpu/spinlock.c:101-133 | a lock opens only by its owner's release, with the nesting down to zero |
| Spinlock.CountersExact | kernel/arch/i386/cpu/cpu.c:205-297 | preempt_disabled is the held nesting, the acquires and releases in progress and the explicit disables; cli_stack likewise; no panic is reached |
| SpinlockInterrupts.InterruptsComeBack | kernel/arch/i386/cpu/cpu.c:205-253 | over every run, whenever cli_stack is 0 outside of handlers the interrupt flag is what it was at any other such moment, with no switch of the CPU in between; under pushes int_enabled is that flag |
| SpinlockInterrupts.CallsKeepInterrupts | kernel/arch/i386/cpu/spinlock.c:54-133 | code outside of handlers and pushes has its interrupt flag back after every acquire and every release |
| SpinlockInterrupts.ContextComesBack | kernel/arch/i386/scheduler.c:151-168 | a context comes back on any CPU with the locks, counters and handler it left with, and with its interrupt flag if and only if int_enabled agreed with it at the switch |
| SpinlockInterrupts.ContextStarts | kernel/arch/i386/thread.c:153-166 | a new context first runs with interrupts on, no push outstanding and the global lock held once |
| SpinlockInterrupts.StepHome | kernel/arch/i386/cpu/cpu.c:205-297 | every access, call and interrupt keeps the flag the outstanding pushes will give back |
| SpinlockCalls.CallReturns | kernel/arch/i386/cpu/spinlock.c:54-143 | when a call comes out, whatever interrupts came, its caller holds the lock once more, once less or as before, with its disables and pushes as they were |
| SpinlockCalls.SpinsInterruptibly | kernel/arch/i386/cpu/spinlock.c:33-82 | an acquire that misses opens interrupts before the next try if and only if it was called with them on |
| SpinlockCalls.CountersMove | kernel/arch/i386/cpu/cpu.c:205-297 | push, pop, disable and enable each move their counter by one, and interrupts are off while cli_stack is not 0 |
| Spinlock.SwitchHoldsGlobalOnce | kernel/arch/i386/scheduler.c:237-306 | before and after every switch preempt_disabled is 1 and the global lock is held once |
| Spinlock.AccessSeen | kernel/arch/i386/cpu/spinlock.c:33-143 | one access keeps what the CPU may find in the lock, whoever holds it |
| Spinlock.ApplyKeeps | kernel/arch/i386/cpu/spinlock.c:33-143 | every access, call, interrupt and switch keeps the invariant |
| Pages.WithWordAt | kernel/arch/i386/include/arch/paging_types.h:25-32 | writing a word changes that word of the page and no other |
| Pages.ConstructParts | kernel/arch/i386/include/arch/paging_types.h:34-39 | an entry gives back the address and the flags it was made of |
| Pages.MarkedParts | kernel/arch/i386/paging/core.c:157-157 | or-ing flags into an entry keeps its address, makes it present, and global only if asked to |
| Pages.MarkedGains | kernel/arch/i386/paging/core.c:157-157 | the entry has the flags it had, those or-ed in and the present flag, and no other |
| AddressSpaces.FrameOwned | kernel/arch/i386/paging/core.c:169-202 | a mapped page leads to the frame owned by that slot of that directory |
| AddressSpaces.PagesApart | kernel/arch/i386/paging/core.c:169-202 | no frame is behind two pages, of one directory or of two |
| AddressSpaces.KeptView | kernel/arch/i386/paging/core.c:169-248 | the flat memory of a directory depends on its own frames only |
| PagingSteps.FramesAreReached | kernel/arch/i386/paging/core.c:67-112 | the frames an address space took are exactly those a walk of its tables meets |
| PagingSteps.Partition | kernel/arch/i386/palloc.c:57-164 | every frame given to palloc is on the free list, in a caller's hands, or part of exactly one live address space |
| PagingSteps.WriteBatch | kernel/arch/i386/paging/core.c:204-236 | one page's share of a write updates the flat memory there and nowhere else |
| Paging.Machine.constructor | kernel/arch/i386/palloc.c:43-54 | the empty allocator |
| Paging.Machine.Palloc | kernel/arch/i386/palloc.c:98-135 | the first free frame, cleared, or 0 when there is none; no frame in use changes; the magic panic is unreachable |
| Paging.Machine.PFree | kernel/arch/i386/palloc.c:138-164 | the frame goes to the front of the list and remaining_pages stays the list's length |
| Paging.Machine.AddFreeRegion | kernel/arch/i386/palloc.c:57-77 | exactly the pages of the region without the magic are added, none twice, and pages in use that have it stay in use |
| Paging.Machine.AllocDir | kernel/arch/i386/paging/core.c:32-65 | the directory has the kernel's global entries and nothing else |
| Paging.Machine.EnsureTable | kernel/arch/i386/paging/core.c:115-157 | the entry leads to a table with the old contents, or to a clear one, and gains exactly the flags |
| Paging.Machine.Map | kernel/arch/i386/paging/core.c:115-166 | one page gets the new entry and its directory entry gains the flags; every other translation of every directory is as before, and so is every byte outside the two structures |
| Paging.Machine.GetEntry | kernel/arch/i386/paging/core.c:169-196 | the two-level walk, and who owns what it finds |
| Paging.Machine.VmWrite | kernel/arch/i386/paging/core.c:204-248 | refines writing the bytes into the flat memory, across any number of pages; no other directory's memory changes |
| Paging.Machine.VmRead | kernel/arch/i386/paging/core.c:204-242 | returns the flat memory's bytes of the range |
| Paging.Machine.FreeTable | kernel/arch/i386/paging/core.c:67-82 | gives back the table's pages and the table |
| Paging.Machine.FreeDir | kernel/arch/i386/paging/core.c:85-112 | gives back exactly the frames the address space took, and leaves every other memory alone |
| Paging.Machine.DuplicatePt | kernel/arch/i386/paging/core.c:250-273 | the empty table gets the same pages with the same flags and bytes, in frames that were free |
| Paging.Machine.VmDup | kernel/arch/i386/paging/core.c:275-301 | the same user pages and bytes, with the same flags at both levels, in frames disjoint from every other space, the source unchanged, and one frame taken for each the source has |
| Paging.Machine.DupThenWrite | kernel/arch/i386/paging/core.c:204-301 | after a duplication, what is written through either directory changes nothing that is read through the other |
| ProcessMemory.Process.constructor | kernel/arch/i386/proc.c:22-54 | a new process has an empty user memory |
| ProcessMemory.Process.Reserve | kernel/arch/i386/proc.c:93-134 | the page is mapped, to zeros and with exactly the user and write rights asked for if it was not; nothing else changes; vfrom and vto are the first and the last user page |
| ProcessMemory.Process.MapNew | kernel/arch/i386/proc.c:117-117 | a page from palloc mapped where there was none, with the rights of the flags |
| ProcessMemory.Process.SetBreak | kernel/arch/i386/proc.c:203-209 | both breaks move, the memory stays |
| ProcessMemory.Process.Brk | kernel/arch/i386/proc.c:223-258 | refused exactly by the guards, changing nothing; otherwise the memory grows by the pages up to the new break, each of them user-writable, all other pages keep their entries, and all of the region below the break is mapped through growth, shrink and regrowth |
| ProcessMemory.Process.Sbrk | kernel/arch/i386/proc.c:276-297 | the old break, or the error as an address |
| ProcessMemory.Process.Fork | kernel/arch/i386/proc.c:299-346 | parent and child have the parent's memory, rights and break, in disjoint frames, and no other space changes |
| ProcessMemory.LoopEndsExactly | kernel/arch/i386/proc.c:245-249 | the reserving loop ends if and only if the new break is not in the last page of memory |
| ProcessMemory.NeedNext | kernel/arch/i386/proc.c:223-258 | the frames a range needs are the cost of its first page and what the rest then needs |
| TlbShootdown.OneOutstanding | kernel/arch/i386/paging/ipi.c:47-82 | at most one flush interrupt is outstanding, and never on the CPU that holds the lock |
| TlbShootdown.NothingStale | kernel/arch/i386/paging/ipi.c:17-82 | when paging_propagate_changes returns, no other CPU active throughout holds a covered translation older than the table writes before the call |
| TlbShootdown.FlushCleans | kernel/arch/i386/paging/ipi.c:17-45 | whatever branch the handler takes, nothing the request makes stale is left |
| TlbShootdown.ApplyKeeps | kernel/arch/i386/paging/ipi.c:17-82 | every access and interrupt keeps the protocol's invariant |
| HeapBlocks.BlocksApart | kernel/arch/i386/heap.c:29-40 | two blocks of the list do not overlap |
| HeapBlocks.BlocksCover | kernel/arch/i386/heap.c:29-40 | every byte below cur_size is in a block |
| HeapBlocks.LiveInside | kernel/arch/i386/heap.c:147-221 | a live block lies below cur_size and clear of every other |
| HeapBlocks.EndIsHighest | kernel/arch/i386/heap.c:117-134 | cur_size is the end of the highest live block, 0 if there is none |
| HeapBlocks.BlockList.constructor | kernel/arch/i386/heap.c:136-145 | the empty list |
| HeapBlocks.BlockList.Append | kernel/arch/i386/heap.c:191-212 | the block is placed right after the others and linked in; the live blocks gain it alone |
| HeapBlocks.BlockList.Truncate | kernel/arch/i386/heap.c:117-134 | freed blocks at the end go, no live block does, and the last one left is live |
| HeapBlocks.BlockList.Free | libc/stdlib/heap.c:144-155 | the live blocks lose that one alone |
| KernelHeap.LeastAligned | kernel/arch/i386/heap.c:181-183 | where the alignment sum does not wrap, the gap puts the payload at the least aligned address past the header |
| KernelHeap.WrappedGap | kernel/arch/i386/heap.c:181-183 | where it wraps, the gap puts the payload at the end of the address space, that is at 0 |
| KernelHeap.Heap.constructor | kernel/arch/i386/heap.c:136-145 | the empty heap with nothing mapped |
| KernelHeap.Heap.Grow | kernel/arch/i386/heap.c:82-115 | it panics exactly when the end it computes is past the region; without wrap-around each page below the new size has been mapped exactly once, and with it the last page of memory is still not mapped |
| KernelHeap.Heap.MakeRoom | kernel/arch/i386/heap.c:185-187 | the heap grows only if the blocks do not fit below its size, and the last page of memory is never mapped |
| KernelHeap.Heap.Kalloc | kernel/arch/i386/heap.c:147-221 | for every alignment and size: when it panics; that the payload is aligned; that every byte of the block is in a mapped page if and only if neither the alignment sum nor the end of the block wraps, and the payload is then at the least aligned place and nothing else changes |
| KernelHeap.Heap.Kfree | kernel/arch/i386/heap.c:229-255 | the live blocks lose that one alone; it panics exactly when the address is past the region, which takes an empty block at its very end |
| KernelHeap.Heap.LiveBlockBacked | kernel/arch/i386/heap.c:147-255 | in every valid heap each byte of a live block is in a page mapped once, and in no other live block |
| KernelHeap.Heap.EndsAtLiveBlock | kernel/arch/i386/heap.c:117-134 | in every valid heap cur_size is the end of the highest live block, 0 if there is none |
| KernelHeap.KallocWraps | kernel/arch/i386/heap.c:185-187 | on a new heap a size just short of 4 GiB gets a block, and no page is mapped |
| KernelHeap.KallocNull | kernel/arch/i386/heap.c:181-183 | on a new heap an alignment of 0xffffffff gets address 0, for a block with no page behind it |
| LibcHeap.Heap.constructor | libc/stdlib/heap.c:53-57 | the heap begins at the break |
| LibcHeap.Heap.Malloc | libc/stdlib/heap.c:88-142 | for every size: when it returns NULL, changing nothing; that every byte of the block is in a mapped page of the process if and only if the size does not wrap, and the block is then added after the others below the break |
| LibcHeap.Heap.Free | libc/stdlib/heap.c:144-155 | the live blocks lose that one alone and the break stays |
| LibcHeap.Heap.LiveBytesMapped | libc/stdlib/heap.c:59-155 | every byte of every live block is in a mapped page of the process and in no other live block |
| LibcHeap.MallocWraps | libc/stdlib/heap.c:102-111 | on an empty heap a size just short of 4 GiB gets a block the process does not have the pages of, and its memory stays as it was |
| BlockCache.RefCountsClaims | kernel/kernel/drivers/ata/generic.c:293-384 | a slot's ref is the number of claims between taking it and finishing unlock |
| BlockCache.RelabelledWhenFree | kernel/kernel/drivers/ata/generic.c:342-359 | a slot changes its block only while nobody holds or awaits its mutex or is leaving it |
| BlockCache.OneSlotPerBlock | kernel/kernel/drivers/ata/generic.c:308-338 | no two slots that have been hit have one drive and block |
| BlockCache.ReadsTheDisk | kernel/kernel/drivers/ata/generic.c:293-444 | byte k of a read at an offset is the disk's byte at the offset plus k of the block that was locked, for every lock and read of a run |
| BlockCache.HitsCountLocks | kernel/kernel/drivers/ata/generic.c:308-355 | while a slot keeps its block, its hit counter counts the locks of that block, modulo 32 bits |
| BlockCache.MutexExcludes | kernel/kernel/drivers/ata/generic.c:293-384 | two claims are never inside one slot's mutex |
| BlockCache.FullCache | kernel/kernel/drivers/ata/generic.c:308-362 | lock panics exactly when no slot has the block and every slot is referenced or hit UINT_MAX times |
| Eviction.Victim | kernel/kernel/drivers/ata/generic.c:327-339 | the victim is unreferenced, least hit, and first among those |
| Eviction.FindVictim | kernel/kernel/drivers/ata/generic.c:327-339 | the search loop, as both caches make it, finds that victim |
| Eviction.VictimExists | kernel/kernel/fs/fat_vfs.c:29-38 | there is a victim exactly when the count of evictable entries is not 0 |
| BlockCache.ApplyKeeps | kernel/kernel/drivers/ata/generic.c:293-444 | every step of lock, read and unlock keeps the invariant |
| BlockCache.Cache.constructor | kernel/kernel/drivers/ata/generic.c:456-459 | the all-zero cache |
| BlockCache.Cache.Lock | kernel/kernel/drivers/ata/generic.c:293-363 | the two search loops take the specification's slot, or panic where it has none |
| FatNodes.NodeCache.Get | kernel/kernel/fs/fat_vfs.c:123-148 | the node of the cluster gains a reference, or a new one is inserted at the head |
| FatNodes.NodeCache.Put | kernel/kernel/fs/fat_vfs.c:186-201 | the node loses a reference, and the cache is truncated; at most 30 nodes stay unreferenced if and only if the put does not cross the threshold |
| FatNodes.NodeCache.Truncate | kernel/kernel/fs/fat_vfs.c:14-51 | above the threshold the first least hit unreferenced node goes |
| FatNodes.PutIdle | kernel/kernel/fs/fat_vfs.c:186-201 | a put never lets the evictable nodes grow past 30 |
| FatNodes.PutKeepsBound | kernel/kernel/fs/fat_vfs.c:14-51 | with at most 30 nodes unreferenced, a put keeps it so if and only if it is not of the last reference to a node hit UINT_MAX times when 30 other such nodes are unreferenced and none is evictable |
| FatNodes.CrossingPut | kernel/kernel/fs/fat_vfs.c:29-38 | a list of 31 nodes on which a put leaves 31 unreferenced |
| FatNodes.TruncatedUnused | kernel/kernel/fs/fat_vfs.c:14-51 | truncating takes exactly one evictable node when there are more than 30 nodes and one is evictable, and never one hit UINT_MAX times |
| FatNodes.TruncatedNodes | kernel/kernel/fs/fat_vfs.c:14-51 | truncating takes no node anyone references |
| FatNodes.GotNodes | kernel/kernel/fs/fat_vfs.c:123-148 | a get keeps one node per cluster and adds one reference to one node |
| FatNodes.NodesAre | kernel/kernel/fs/fat_vfs.c:29-38 | every node is evictable, referenced, or unreferenced and hit UINT_MAX times |
| OpenFiles.NeverDangling | kernel/kernel/vfs/file.c:55-95 | no call follows a pointer to a freed file or puts a node that is not there |
| OpenFiles.ReachableFileLives | kernel/kernel/vfs/file.c:21-95 | a file's ref is its descriptors over all processes and its calls in flight; such a file is live, and its node is cached and still that of its cluster |
| OpenFiles.OneNodePerCluster | kernel/kernel/fs/fat_vfs.c:53-148 | there is one node per first cluster |
| OpenFiles.FewUnreferencedNodes | kernel/kernel/fs/fat_vfs.c:14-51 | at most 30 nodes are unreferenced all through a run up to any point if and only if no put of the run before it crosses the threshold |
| OpenFiles.FewIdleNodes | kernel/kernel/fs/fat_vfs.c:14-51 | in every run at most 30 nodes are evictable, so nof_nodes is at most 30 plus the referenced nodes and the unreferenced ones hit UINT_MAX times |
| OpenFiles.StepSafe | kernel/kernel/syscall/file.c:71-161 | the lock, dup and close brackets keep every pointer they follow valid |
| FileCalls.OpenedFile | kernel/kernel/syscall/file.c:21-66 | what a call opened for a cluster is, until it is unbound, the file of the first descriptor that was vacant, is of that cluster, and its node is cached |
| FileCalls.HandleKeepsFile | kernel/kernel/proc.c:19-70 | a descriptor or call names one file, with one cluster, until it is bound, closed or unbound |
| FileCalls.SharedFile | kernel/arch/i386/proc.c:333-340 | a fork gives the child the parent's file, a borrowing call has the descriptor's file, and only unbinding takes the descriptor |
| FileCalls.HitsCountGets | kernel/kernel/fs/fat_vfs.c:123-148 | while a node is cached its hit counter counts the gets of its cluster, modulo 32 bits |
| FileCalls.NewNodeHit | kernel/kernel/fs/fat_vfs.c:123-148 | a node that a get inserts has been hit once |
| OpenFiles.ApplyKeeps | kernel/kernel/syscall/file.c:21-271 | every open, bind, dup, fork, unbind, close, put and free keeps the counts |
| OpenFiles.Descriptors.constructor | kernel/include/kernel/proc.h:55-55 | all descriptors vacant |
| OpenFiles.Descriptors.GetVacantFd | kernel/kernel/proc.c:19-30 | the first vacant descriptor, or the error exactly when there is none |
| OpenFiles.Descriptors.Bind | kernel/kernel/proc.c:42-55 | a vacant descriptor in range gets the file, and nothing else changes |
| OpenFiles.Descriptors.Unbind | kernel/kernel/proc.c:57-70 | the descriptor's file, and the descriptor vacant |
| FatEntries.LongNameRoundTrip | kernel/kernel/fs/fat_core.c:247-335 | a name laid out in descending entries behind deleted ones reads back as itself, with its short entry and the index after it |
| FatEntries.StoredNameReads | kernel/include/kernel/fs/fat_types.h:119-156 | the layout of every non-empty NUL-free ASCII name of at most 255 characters reads back, whatever surrounds it |
| FatEntries.ScanSame | kernel/kernel/fs/fat_core.c:247-335 | what a read returns does not depend on what was in the result before |
| FatEntries.ReadEntryInto | kernel/kernel/fs/fat_core.c:247-335 | the loop refines the specification, and every write is inside the 261-byte buffer |
| FatEntries.CopyChars | kernel/include/kernel/fs/fat_types.h:165-183 | the 13 characters, cut to ASCII, in place |
| FatEntries.FillShortName | kernel/kernel/fs/fat_core.c:305-320 | the short name in place |
| FatEntries.ShortNameIs | kernel/kernel/fs/fat_core.c:305-320 | the short name is the name, a dot and the extension, or the name alone, if and only if no byte behind a NUL of the name is taken along |
| FatLeaves.WalkReads | kernel/kernel/fs/fat_vfs.c:381-404 | a walk that starts at entry m and reads n - m + 1 entries ends by reading entry n |
| FatLeaves.DirectoryNode.MaybeFillLeaves | kernel/kernel/fs/fat_vfs.c:278-320 | the index has the number of entries and the starts of the first 16, or an entry cannot be read |
| FatLeaves.DirectoryNode.GetLeafNode | kernel/kernel/fs/fat_vfs.c:353-407 | the entry and name that scanning n + 1 entries from the start reads; it panics only if an entry cannot be read or there are not that many |
| FatLeaves.DirectoryNode.ReadLeaf | kernel/kernel/fs/fat_vfs.c:380-404 | through the index or past it, the same entry; the panics of the walk are unreachable |
| Stream.OneCallOrTwo | libc/stdio/stream.c:201-303 | one fwrite of a + b and an fwrite of a and one of b leave two like streams with the same writes and the same buffer, or unbuffered with the same bytes written |
| Stream.SplittingIsNothing | libc/stdio/stream.c:201-287 | splitting characters into calls in any way gives the same writes and the same buffer |
| Stream.NothingIsLost | libc/stdio/stream.c:201-287 | device bytes plus buffer are everything accepted, and what is kept is shorter than the buffer and newline-free |
| Stream.OutputStream.WriteBuffered | libc/stdio/stream.c:201-287 | the batches issue the writes and leave the buffer of one character at a time |
| Stream.OutputStream.Copy | libc/stdio/stream.c:239-243 | the batch goes to the end of the buffer |
| Stream.OutputStream.Fwrite | libc/stdio/stream.c:289-303 | what each mode does with the bytes |
| Stream.OutputStream.Fflush | libc/stdio/stream.c:305-320 | the buffer is written and empty |
| Stream.FindByte | libc/stdio/stream.c:233-233 | the first newline of the batch, or none |
| Convert.UnsignedItoa | libc/stdlib/convert.c:18-42 | the digits of the value, most significant first, and a NUL |
| Convert.Itoa | libc/stdlib/convert.c:45-74 | the signed decimal text of every 32-bit value, INT_MIN included |
| Convert.PutDigits | libc/stdlib/convert.c:25-30 | the digits of a value of either sign, least significant first |
| Convert.ReverseInPlace | libc/stdlib/convert.c:34-39 | the characters the other way round |
| Convert.DigitsValue | libc/stdlib/convert.c:18-42 | the digits of a number stand for it |
| Convert.Strtol | libc/stdlib/convert.c:81-123 | on a numeral no power, product or sum overflows if and only if the first weight and the number fit, and then the result is the number; if the first weight fits, the result is the number as 32 bits hold it |
| Convert.PowerLoop | libc/stdlib/convert.c:112-113 | the weight of the first digit, and whether it fits |
| Convert.DigitLoop | libc/stdlib/convert.c:115-120 | the sum of the digits with their weights, and whether it fits |
| Convert.AtoiOfItoa | libc/stdlib/convert.c:45-79 | the text of every 32-bit int reads back as the int, INT_MIN included, and without overflow exactly when it is not INT_MIN |
| Convert.StrtolOfUnsignedItoa | libc/stdlib/convert.c:18-123 | the text of every number up to INT_MAX in every base from 2 to 16 reads back, without overflow |

## Left out

- Port and register access, interrupt controllers, timers, PCI, VGA, serial, boot, assembly stubs and ELF loading: hardware plumbing and easy members.
- Interrupt handlers that re-enter the global scheduler lock on the CPU that holds it; the source leaves that open.
- The intrusive links of the per-process thread lists, which the scheduler keeps as sequences; LIST_REMOVE is proved by itself.
- Liveness and fairness of spinning, and wrap-around of thread and process numbers and of reference counts.
- proc_free, which frees data pages twice and has no caller; teardown is paging_free_dir.
- schedule_thread on a user process, which would make an exiting process runnable again; only the kernel process uses it.
- Block writes, whose device routine is a stub, and gen_ata_bd_write.
- fat_read across sectors, fat_walk_path, mount matching, empty files that share cluster 0, and leaf 0.
- Return counts of fwrite and fread, short device writes, fseek and the printf family.
- Accessed and dirty bits the hardware sets in page table entries, and changes to the global entries of the kernel directory, which are fixed.
- KernelHeap.Heap.Kfree: takes the address of a live block; the magic check catches others only by chance.
- Paging.Machine.AddFreeRegion: a page of the region that is in use has the magic number in its first word; the code would free it otherwise.
- Pages.MarkedParts: flags are the low 12 bits, as all callers pass them; wider ones are not modelled.
- Paging.Machine.AllocDir: palloc has a frame; its callers do not check for 0. The same holds of EnsureTable, Map, VmDup, Reserve, Brk and Fork, which state how many frames they take.
- Paging.Machine.GetEntry: user pages only, outside the kernel's directory entries; so too Map, VmRead and VmWrite, which require mapped pages as the code does not check.
- ProcessMemory.Process.Reserve: not page 0, for which the code would take vfrom to be unset.
- ProcessMemory.Process.Brk: the memory map's answer for the address is a parameter, the frames the break needs must be there, since the guard does not count them, and the break is not in the last page of memory, where the loop does not end (LoopEndsExactly).
- TlbShootdown.NothingStale: translations marked global are not modelled, so the flush the handler makes for a global request drops none.
- KernelHeap.Heap.Kalloc: not an alignment of 0, which divides by zero; and where a sum wraps nothing is said of the heap after the call.
- LibcHeap.Heap.Malloc: where the size wraps nothing is said of the block list after the call. Nothing else moves the break.
- FatLeaves.DirectoryNode.GetLeafNode: stops at the entry; the node it then gets is FatNodes.NodeCache.Get.
- Convert.Strtol: nothing about text with a bare sign or characters after the digits, and endptr is NULL as the code asserts.
