# ibnos kernel model

A Dafny model of the hard parts of the ibnos kernel and of its shell's argument parser, with proofs about
every run of them.  The kernel is single-CPU and not preemptible, so each kernel entry is one atomic step
over shared state: state that the C code updates in place is a class whose methods update fields or arrays,
pure facts about that state are lemmas on values, and the properties are invariants that every entry keeps
or refinements of a simpler machine.

`dafny verify dfyconfig.toml` checks everything.

| files | part of the system |
|---|---|
| `FrameAccounting`, `PageTables`, `PagingSteps`, `PagingMoves`, `PagingBudget`, `AreaSearch`, `Paging` | physical frames with lazily created reference counts, page tables, copy-on-write fork, page faults, kernel windows into user memory |
| `PageBitmap` | the word-level frame bitmap |
| `HeapTiles`, `HeapState`, `KernelHeap` | the kernel heap with in-band headers |
| `KernelBytes` | what the paging layer promises the heap about the bytes of a resized block |
| `WaitQueues`, `Lifecycle`, `Attachments`, `Releases`, `KernelSteps`, `KernelObjects` | threads, processes, semaphores, events, wait queues, handles, reference counts and destruction |
| `TimerObjects` | the timers as objects that threads wait for: clock and kernel together |
| `Timers`, `Pipes`, `Blocks`, `Handles` | timers, pipes (with memcpy and memmove), handle tables |
| `Intervals` | boot map and ELF page list as interval sets |
| `LinkedLists`, `Sequences` | intrusive circular lists; sequences that stand for them elsewhere |
| `ShellArgs` | the shell's in-place argument parser |

Main results:

- **Copy-on-write is invisible** (`Paging.Vm.Run`): over any interleaving of process creation, fork, exit,
  allocation (searched or at a fixed address), release, user stores through the fault handler, kernel reads and
  writes of user memory, kernel pages lent to processes and the kernel's own allocations, the pages all processes
  see go through exactly the states of a machine that copies every page at fork.  An entry stops
  only for a reason that is true and that it can have; creation, fork and allocation stop only if there was too little
  at the start: a fork, for one, only if tables like the parent's do not fit into what is free or a count would pass
  its limit.
- **Frame accounting** (part of `Paging.Vm.Valid`, kept by every method): a frame's lazily stored count is the
  number of entries that name it, its bit clears with the last one, and the 7-bit counter never wraps.
- **Heap**: blocks tile pages, free neighbours never touch, the lists hold exactly the free blocks of their
  size class, payloads never overlap and survive every call, realloc keeps the common bytes on every path (for
  large blocks by the very statement that `Paging.Vm.ReAllocatePhysMem` proves, `KernelBytes.Carried`), and
  freeing the last block returns every page.
- **Kernel objects** (`KernelObjects.Kernel.Run`): each entry of a run does what `KernelSteps.Done` says, and
  nothing if the caller may not ask for it.  After each of them every live thread hangs in exactly one list,
  nobody sleeps on a condition that holds, late devices aside (a timer can get ready without waking all who wait
  for it, see below), no readiness of a wake-all event is lost, semaphore tokens balance,
  and the reference count of every object is the number of handles, attachments and live threads that refer to
  it, so that it is destroyed exactly if there is none.  Releasing the last reference destroys the object and
  may set off a cascade through handle tables and events; the cascade ends.  Killing a process ends each thread
  once, closes every handle, frees the tables once and wakes every waiter with the exit code.
- **The shell's parser**: any arguments, escaped and put into quotes, are read back (`ShellArgs.RoundTrip`), and
  nothing else can be written in a line (`ShellArgs.OnlyWritable`).
- **Timers, pipes, handles, intervals**: see the table.

Where the code does not do what its comments say, the model follows the code and the exact condition is
proved:

- `pagingTrySearchArea` is first fit if and only if the 32-bit sum `start + length - 1` does not wrap
  (`AreaSearch.TrySearchArea`, `AreaSearch.WrapExample`).
- A large heap block is large enough if and only if its rounded size is below 2 GB (`HeapState.LargeSizeExact`,
  `HeapState.LargeSizeExample`).
- A timer set by a write is not overdue if and only if the 64-bit sum does not overflow
  (`Timers.TimerQueue.Write`, `Timers.OverflowRun`); a stale periodic timer
  is set right by a wait if and only if a product fits into 32 bits.  Otherwise it stays in the past.
- The tick ends if and only if no common multiple of the interval of a due timer and 2^32 lies within the time
  since its timeout, rounded up to intervals (`Timers.SettlesExact`, `Timers.TimerQueue.TickLate`,
  `Timers.TickGoesOn`).  `Timers.StaleRun` reaches a state in which the next tick does not end.
- Threads can sleep on a timer that is ready.  A write leaves a waiter so if and only if there is one and the new
  timeout is not in the future (`TimerObjects.TimerObjects.Write`); a tick that fires a timer does if and only if the
  timer does not repeat, is to wake one waiter and had more than one (`TimerObjects.TimerObjects.StrandedExact`,
  `KernelObjects.Kernel.Expire`, `TimerObjects.OneLeftAsleep`).  In `TimerObjects.LostWakeup` another wait takes the
  timer off the clock's list, and no later tick wakes the sleeper.
- `handleSet` stops growing one slot short if and only if the handle is itself a larger table size
  (`Handles.HandleTable.Set`, `Handles.GrowthStops`, `Handles.OverrunExample`).
- The boot map keeps its shape on an empty range if and only if that range touches one that is there
  (`Intervals.EmptyEntry`, `Intervals.EmptyEntryExample`).
- The shell's parser returns `maxArgs + 1` arguments if and only if the last word for which there is room is ended
  by a bar (`ShellArgs.OneMoreExact`); its test `count > maxArgs` behind a word can never be true.  The caller's
  array then has no room for the terminator (`ShellArgs.TerminatorFits`, `ShellArgs.OneMoreExample`).
- A handle for an object with minimum handle 0 is the lowest free one if and only if no handle below the hint is
  free (`Handles.HandleTable.Allocate`, `Handles.NotTheLowest`); with minimum 3 it always is the lowest from 3 on.
- Loading an ELF file stops the kernel if and only if a section needs the NULL page or a page that the process has
  already, the last page of the address space aside (`Intervals.LoadPages`, `Intervals.StoppedBy`).  If it does not
  stop, all pages that the sections need are allocated if and only if every section ends below the last page, which is
  never allocated (`Intervals.LastPageExample`).

## Model

| member | source | states |
|---|---|---|
| `FrameAccounting.AllocKeepsAccounts` | kernelmode/kernel/memory/physmem.c:383-414 | taking a free frame keeps every frame's count equal to the entries and variables that name it |
| `FrameAccounting.AddRefKeepsAccounts` | kernelmode/kernel/memory/physmem.c:460-475 | one more reference below the 7-bit limit keeps the accounts, creating the record if there was none |
| `FrameAccounting.ReleaseKeepsAccounts` | kernelmode/kernel/memory/physmem.c:426-452 | giving one reference back keeps the accounts; the bit clears exactly with the last reference |
| `FrameAccounting.SoleNamer` | kernelmode/kernel/memory/physmem.c:510-514 | a frame with count one is named by a single entry |
| `FrameAccounting.CountsAtRest` | kernelmode/kernel/memory/physmem.c:426-514 | between kernel entries the stored count (none means one) of every allocated frame is the number of entries naming it, and a frame is allocated exactly if some entry names it or it never was memory |
| `Paging.Vm.AllocPage` | kernelmode/kernel/memory/physmem.c:383-414 | lowest free frame at or above 1 MB, or a stop when there is none |
| `Paging.Vm.AddRefPage` | kernelmode/kernel/memory/physmem.c:460-475 | count plus one; stops exactly when the counter would wrap |
| `Paging.Vm.ReleasePage` | kernelmode/kernel/memory/physmem.c:426-452 | the references left are returned and the frame is freed exactly when none is left |
| `Paging.Vm.IsLastRef` | kernelmode/kernel/memory/physmem.c:510-514 | true exactly if one reference is left |
| `Paging.Vm.EnsureTable` | kernelmode/kernel/memory/paging.c:122-204 | the page table for a page exists afterwards; nothing any process sees changes |
| `Paging.Vm.MapPhysMem` | kernelmode/kernel/memory/paging.c:228-277 | a frame is mapped at the lowest free kernel page: all lower ones are in use |
| `PageBitmap.PhysMap.SetMemoryBits` | kernelmode/kernel/memory/physmem.c:319-371 | exactly the bits of the given pages change, for all alignments and lengths |
| `PageBitmap.PhysMap.AllocPage` | kernelmode/kernel/memory/physmem.c:383-414 | lowest clear bit from 1 MB (or from 0) is set and no other bit changes; None exactly if all are set |
| `PageBitmap.PhysMap.ClearPage` | kernelmode/kernel/memory/physmem.c:426-452 | exactly the bit of the page is cleared |
| `PageBitmap.FirstClear` | kernelmode/kernel/memory/physmem.c:398-401 | the shift loop ends at the lowest clear bit of a word that is not full |
| `PageBitmap.SpanPages` | kernelmode/kernel/memory/physmem.c:319-371 | the bitmap refines a set of pages: a span of bits set or cleared is a range added to or taken from the set |
| `AreaSearch.TrySearchArea` | kernelmode/kernel/memory/paging.c:612-641 | lowest free run, None exactly if there is none, as long as the 32-bit sum does not wrap; if it wraps, the answer is no free run |
| `AreaSearch.ShortNeverWraps` | kernelmode/kernel/memory/paging.c:612-641 | the sum never wraps for lengths up to the 32-bit range minus the directory area |
| `AreaSearch.WrapExample` | kernelmode/kernel/memory/paging.c:632 | an address space and a length for which the sum wraps |
| `Paging.Vm.TryAllocatePhysMem` | kernelmode/kernel/memory/paging.c:736-763 | first fit; every page of the run gets the permissions asked for and a frame that was free before and that no other page of the run has; nothing else changes; the kernel stops only with fewer than three free frames and two free kernel pages for each page asked for |
| `Paging.Vm.AllocatePhysMemFixed` | kernelmode/kernel/memory/paging.c:778-884 | every page of the given range gets a frame that was free, each its own, if none was in use and it does not begin with the NULL page; otherwise the kernel stops, naming such a page; it stops for want of memory only with fewer than three free frames and two free kernel pages for each page |
| `Paging.Vm.MapRemoteMemory` | kernelmode/kernel/memory/paging.c:1150-1226 | the frames of kernel pages appear in a process without user permission, each counted once more; no process sees a difference; a stop for an address in use names a page of the range that was in use before |
| `Paging.Vm.TryRelease` | kernelmode/kernel/memory/paging.c:1051-1097 | exactly the mapped pages of the (wrapping) range are released, each frame once; true exactly if all were there |
| `PagingSteps.ReleasedStep` | kernelmode/kernel/memory/paging.c:1615-1662 | one page of a release: at most its own slot goes, and a page visited twice makes the result false |
| `Paging.Vm.ReAllocatePhysMem` | kernelmode/kernel/memory/paging.c:937-1021 | a block of kernel pages grows or shrinks: the kernel reads the same bytes in the part that stays, wherever the block ends up, and everywhere outside the block; new pages get frames that were free, each its own; the rest is released; it stays in place if it shrinks or the pages behind it are free |
| `Paging.Vm.Move` | kernelmode/kernel/memory/paging.c:887-917 | every entry of the block moves to the free run, no reference count changes |
| `Paging.Vm.GrowPage` | kernelmode/kernel/memory/paging.c:950-976 | one page more; on a collision the block moves to the lowest free run with room for all of it |
| `PagingMoves.MoveKeepsAccounts` | kernelmode/kernel/memory/paging.c:887-917 | an entry moved to another slot keeps the frame accounts |
| `PagingMoves.MoveSound` | kernelmode/kernel/memory/paging.c:887-917 | a moved entry keeps writable user frames unshared and every table in place |
| `PagingMoves.ReblockedMove` | kernelmode/kernel/memory/paging.c:887-917 | moving a grown block keeps its entries and everything outside it |
| `PagingMoves.ReblockedView` | kernelmode/kernel/memory/paging.c:937-1021 | no process sees kernel blocks come, go or move |
| `PagingMoves.BytesCarried` | kernelmode/kernel/memory/paging.c:887-1021 | entries that move take along what the kernel reads through them |
| `Paging.Vm.ReserveArea` | kernelmode/kernel/memory/paging.c:550-572 | the pages are reserved and no process sees a difference |
| `Paging.Vm.AllocProcessPageTable` | kernelmode/kernel/memory/paging.c:1236-1249 | the process gets a directory of its own and sees no page; the kernel stops only with fewer than three free frames or two free kernel pages |
| `Paging.Vm.ForkProcessPageTable` | kernelmode/kernel/memory/paging.c:1261-1336 | what processes see is what they would see had every user page been copied at once; counts stay right although only entries were shared; the kernel stops only if a table of the child may lack a frame or a kernel page in the state before the call, or a frame would be named more often than the counter can hold, and goes on only if none would |
| `PagingSteps.ForkedView` | kernelmode/kernel/memory/paging.c:1261-1336 | write-protecting and sharing all user pages of the parent is, in what processes see, a full copy |
| `PagingBudget.ForkedNamers` | kernelmode/kernel/memory/paging.c:1261-1336 | when the first i pages have been shared, a frame is named once more for each of them that names it |
| `PagingBudget.CountFull` | kernelmode/kernel/memory/physmem.c:460-475 | a full counter in the middle of a fork means that the whole fork would need more than the counter can hold |
| `PagingBudget.ForkStopped` | kernelmode/kernel/memory/paging.c:122-204 | a table that finds no frame or kernel page, or a counter that is full, in the middle of a fork means that there were too few for all tables, or a count too high, before it |
| `PagingBudget.ForkCounted` | kernelmode/kernel/memory/paging.c:1261-1336 | a fork that got through leaves no frame named more often than the counter can hold |
| `Paging.Vm.PageFault` | kernelmode/kernel/memory/paging.c:298-376 | resolved exactly if the process may do what it tried; nothing any process sees changes |
| `Paging.Vm.Duplicate` | kernelmode/kernel/memory/paging.c:298-376 | a copy-on-write page becomes writable, in a frame of its own if the frame was shared |
| `PageTables.IsolatedPromote` | kernelmode/kernel/memory/paging.c:298-376 | giving back write permission to the only user of a frame keeps writable frames unshared |
| `PageTables.IsolatedShare` | kernelmode/kernel/memory/paging.c:1261-1336 | sharing a write-protected frame with the child keeps writable frames unshared |
| `Paging.Vm.UserRead` | kernelmode/kernel/memory/paging.c:298-376 | a load gives the byte the process sees, or fails |
| `Paging.Vm.UserWrite` | kernelmode/kernel/memory/paging.c:298-376 | a store changes one byte of the storing process and nothing anyone else sees, through any fault it causes |
| `PagingSteps.WriteView` | kernelmode/kernel/memory/paging.c:298-376 | a byte stored into a writable page is seen by its process only |
| `Paging.Vm.ReleaseProcessPageTable` | kernelmode/kernel/memory/paging.c:1344-1428 | all pages and tables of the process are gone, every frame released as often as it was named, all others unchanged |
| `Paging.Vm.TryMapUserMem` | kernelmode/kernel/memory/paging.c:1520-1601 | all pages of the range are mapped into the kernel, split from sharers first if writable; None exactly if the process may not access one of them, and then nothing stays mapped |
| `Paging.Vm.WriteUserMemory` | kernelmode/kernel/memory/paging.c:1520-1662 | writes through a window reach the process and nobody else; the window is gone afterwards |
| `Paging.Vm.ReadUserMemory` | kernelmode/kernel/memory/paging.c:1520-1662 | reads through a window give what the process sees |
| `Paging.Vm.Step` | kernelmode/kernel/memory/paging.c:736-1662 | each kernel entry does what the machine without sharing does, or stops, for a reason that is true and that this entry can have; creation, fork and allocation stop only if there was too little for them at the start; an allocation gives nothing exactly if there is no free run; what the kernel allocates, releases, resizes or lends is invisible |
| `Paging.Vm.Run` | kernelmode/kernel/memory/paging.c:736-1662 | every run is a run of the machine that copies at fork, up to an entry that stops for a reason it can have |
| `HeapTiles.Split` | kernelmode/kernel/memory/allocator.c:182-222 | cutting a block in two keeps pages tiled exactly by aligned blocks of at least 32 bytes |
| `HeapTiles.Merge` | kernelmode/kernel/memory/allocator.c:155-180 | joining two neighbours keeps the tiling |
| `HeapTiles.EveryPageInUse` | kernelmode/kernel/memory/allocator.c:88-121 | every page the small heap holds has a reserved block |
| `HeapTiles.NothingUsedNothingHeld` | kernelmode/kernel/memory/allocator.c:88-121 | with no reserved block left, no page is held |
| `HeapState.PayloadsDisjoint` | kernelmode/kernel/memory/allocator.c:363-374 | payloads of different blocks, small or large, never overlap |
| `HeapState.PayloadAligned` | kernelmode/kernel/memory/allocator.c:363-374 | payloads are 16-aligned and at least 16 bytes long |
| `HeapState.WritesStayInside` | kernelmode/kernel/memory/allocator.c:363-374 | bytes written inside a payload hit no header and no other payload |
| `HeapState.LargeSizeExact` | kernelmode/kernel/memory/allocator.c:288-304 | a large block is large enough if and only if the rounded size is below 2 GB |
| `HeapState.LargeSizeExample` | kernelmode/kernel/memory/allocator.c:294-303 | a request of 0x7FFFF000 bytes gets a block whose header says 0 |
| `HeapState.BytesKept` | kernelmode/kernel/memory/allocator.c:466-477 | a resized block has every byte of the old payload that the new length covers |
| `HeapState.BucketExact` | kernelmode/kernel/memory/allocator.c:99-112 | a block of at least 32 bytes goes to list i if and only if its length reaches the bound of i and, below the last list, not the next one |
| `HeapState.LeastDoubles` | kernelmode/kernel/memory/allocator.c:99-112 | the bounds begin at 32 bytes and double |
| `KernelHeap.Heap.FindUnused` | kernelmode/kernel/memory/allocator.c:65-86 | the first block of the first free list whose blocks are all large enough; None exactly if those lists are empty |
| `KernelHeap.Heap.QueueUnused` | kernelmode/kernel/memory/allocator.c:88-121 | a free whole page is returned, any other free block goes to the head of the one list whose bounds its length meets; no payload changes |
| `KernelHeap.Heap.PreviousHeap` | kernelmode/kernel/memory/allocator.c:123-141 | walking the headers finds the block in front, all internal assertions hold |
| `KernelHeap.Heap.NextHeap` | kernelmode/kernel/memory/allocator.c:143-152 | the block behind, if it is in the same page |
| `KernelHeap.Heap.InternalFree` | kernelmode/kernel/memory/allocator.c:155-180 | merged both ways, no two free neighbours remain, reserved blocks and payloads stay |
| `KernelHeap.Heap.SmallAlloc` | kernelmode/kernel/memory/allocator.c:182-222 | a new reserved block, less than 32 bytes larger than needed; a page is fetched only if no list fits |
| `KernelHeap.Heap.SmallFree` | kernelmode/kernel/memory/allocator.c:224-232 | the block is free, all other reserved blocks and their bytes stay |
| `KernelHeap.Heap.SmallReAlloc` | kernelmode/kernel/memory/allocator.c:234-280 | succeeds exactly if the block, with a free block behind it, has room; keeps the common bytes |
| `KernelHeap.Heap.LargeAlloc` | kernelmode/kernel/memory/allocator.c:288-304 | a new block of whole pages; all other payloads stay |
| `KernelHeap.Heap.LargeFree` | kernelmode/kernel/memory/allocator.c:306-318 | the block and its area are gone; all other payloads stay |
| `KernelHeap.Heap.MoveLarge` | kernelmode/kernel/memory/allocator.c:337-351 | for whatever memory the paging layer leaves behind within its contract, in place or moved, the block keeps its common bytes and its magic, and all other payloads stay |
| `KernelHeap.Heap.Alloc` | kernelmode/kernel/memory/allocator.c:363-374 | a new live block, aligned and large enough; no other payload changes; 0 for length 0 |
| `KernelHeap.Heap.Free` | kernelmode/kernel/memory/allocator.c:385-400 | exactly that block is no longer live; no other payload changes |
| `KernelHeap.Heap.Size` | kernelmode/kernel/memory/allocator.c:411-423 | the usable size of a live block |
| `KernelHeap.Heap.ReAlloc` | kernelmode/kernel/memory/allocator.c:439-480 | every byte of the old payload that the new length covers is in the new payload on the in-place, relocation and copy paths, no other payload changes; a small block stays whenever it has room, a large one if its page count stays or the paging layer resizes it where it is |
| `KernelHeap.Heap.Store` | kernelmode/kernel/memory/allocator.c:363-374 | a client's write keeps the heap intact and changes one byte of its own block |
| `KernelHeap.Heap.AllReturned` | kernelmode/kernel/memory/allocator.c:88-180 | with no live block left, every page has been returned and every list is empty |
| `KernelObjects.Kernel.SignalThread` | kernelmode/kernel/process/thread.c:295-304 | a blocked live thread moves from its queue to the end of the run list with the result; otherwise nothing |
| `KernelObjects.Kernel.Wake` | kernelmode/kernel/include/process/object.h:159-167 | all (or the first) waiters of a queue are woken with the result although they leave it meanwhile; other queues change only above it in the attachment order; the woken threads are appended to the run list in the order of the queue |
| `WaitQueues.ThreadsAppended` | kernelmode/kernel/include/process/object.h:159-167 | waking a queue of threads only puts exactly that queue behind the run list |
| `WaitQueues.InOrder` | kernelmode/kernel/include/process/object.h:159-167 | whoever is woken later, through sub-events or not, comes behind all that were woken before |
| `KernelObjects.Kernel.SignalSub` | kernelmode/kernel/process/event.c:299-311 | the event takes the result, its waiters (all or the first) get the identifier and are appended to the run list in order |
| `KernelObjects.Kernel.ObjectWait` | kernelmode/kernel/include/process/object.h:123-127 | an answer exactly if the object is ready, with the right value, for an event also the status it takes from the sub-object that answered, nested ones included; otherwise every sub-object is being waited for |
| `KernelObjects.Kernel.SemWait` | kernelmode/kernel/process/semaphore.c:149-156 | takes a token exactly if there is one |
| `KernelObjects.Kernel.SemSignal` | kernelmode/kernel/process/semaphore.c:168-178 | the token goes to a waiter or to the counter; waiters only ever wait at zero |
| `WaitQueues.GiveBalanced` | kernelmode/kernel/process/semaphore.c:168-178 | initial value plus signals equals value plus tokens taken, on the 32-bit counter |
| `WaitQueues.TakeBalanced` | kernelmode/kernel/process/semaphore.c:149-156 | the same after a wait that takes a token |
| `KernelObjects.Kernel.EventWait` | kernelmode/kernel/process/event.c:186-212 | the first sub-object that is ready answers: the caller gets its identifier and the event's status is its answer; without one, all are waited for and the status is 0 if any had to be asked; no other event at this depth or above changes its status |
| `WaitQueues.AnswerStatus` | kernelmode/kernel/process/event.c:186-212 | the answer of a sub-object stands when the event above it takes it as its status |
| `KernelObjects.Kernel.EventSignal` | kernelmode/kernel/process/event.c:220-225 | status cleared, waiters (all or the first) woken with the result |
| `KernelObjects.Kernel.Attach` | kernelmode/kernel/process/event.c:240-258 | one sub-event more at the end, one reference more, invariant kept if no cycle arises |
| `KernelObjects.Kernel.Detach` | kernelmode/kernel/process/event.c:268-291 | exactly the sub-events with the identifier go, each releasing its object, which may be destroyed with all that follows; true exactly if there were any |
| `KernelObjects.Kernel.Abort` | kernelmode/kernel/process/event.c:149-153 | every waiter of a semaphore or event is woken with -1 |
| `KernelObjects.Kernel.ThreadWait` | kernelmode/kernel/process/thread.c:388-405 | goes on with the object's answer, events having taken their status from who answered, or blocks at the head of a queue of an object that is not ready |
| `KernelObjects.Kernel.NewThread` | kernelmode/kernel/process/thread.c:80-176 | runnable at the end of the run list, member of its process, references counted |
| `KernelObjects.Kernel.NewProcess` | kernelmode/kernel/process/process.c:77-118 | no threads, tables in place, one reference |
| `KernelObjects.Kernel.ThreadShutdown` | kernelmode/kernel/process/thread.c:209-244 | the thread is dead with the code and in no list, its waiters go on with the code, the last one takes the process down, references balance, a second call does nothing |
| `KernelObjects.Kernel.ProcessShutdown` | kernelmode/kernel/process/process.c:167-201 | terminates; all threads dead with the code, tables freed and handles released, waiters of the process and its threads go on with the code, those of semaphores and devices destroyed with it with -1, nobody else who waits for such an object is woken |
| `KernelObjects.Kernel.Kill` | kernelmode/kernel/process/process.c:167-201 | each thread of the process was never ended before and is ended exactly once, no handle of the process is left and every reference count still is the number of references, page and handle table are freed exactly once |
| `KernelObjects.Kernel.Release` | kernelmode/kernel/include/process/object.h:98-103 | one reference less; with the last one the object is destroyed, and what that releases in turn; ends, and objects that keep a reference keep their threads, tables, handles and sub-events; any other release changes that count and nothing else |
| `KernelObjects.Kernel.Destroy` | kernelmode/kernel/process/process.c:127-157 | a thread or process without references has no waiters and no threads, so the destructors' assertions hold; waiters of a semaphore or device give up with -1; the cascade ends |
| `KernelObjects.Kernel.DestroyEvent` | kernelmode/kernel/process/event.c:115-138 | waiters give up, then every sub-event leaves its queue and releases its object |
| `KernelObjects.Kernel.CloseHandle` | kernelmode/kernel/process/handle.c:227-260 | the handle is gone and its reference given back; the last one destroys the object |
| `KernelObjects.Kernel.FreeTables` | kernelmode/kernel/process/handle.c:94-104 | every handle of the process is released, each destroying its object if it was the last, and the process itself survives that |
| `KernelObjects.Kernel.ForkHandles` | kernelmode/kernel/process/handle.c:68-87 | the child has the parent's handles, nobody else's change, and every count grows by one for each |
| `KernelObjects.Kernel.SetHandle` | kernelmode/kernel/process/handle.c:189-201 | the new object is referenced before the old one is released, and is in the slot afterwards if the process has threads; the old object has one reference less, and only the last one has consequences |
| `KernelObjects.Kernel.MakeReady` | kernelmode/kernel/process/timer.c:251-264 | a device changes and nobody is woken: it is late exactly if it is ready then and somebody waits for it; the invariant holds |
| `KernelObjects.Kernel.DeviceTurns` | kernelmode/kernel/process/timer.c:281-304 | a device gets ready and everybody who waits for it, and for no other such object, goes on with what is told; nobody is left asleep on it |
| `KernelObjects.Kernel.Expire` | kernelmode/kernel/process/timer.c:293-300 | a one-shot timer that wakes one waiter leaves somebody asleep if and only if it had more than one; the invariant holds |
| `KernelObjects.Kernel.NoReferenceLost` | kernelmode/kernel/include/process/object.h:89-103 | between kernel entries a count is the number of attachments, handles and live threads that refer to the object; it exists exactly if there is one |
| `Releases.AfterTrans` | kernelmode/kernel/process/handle.c:94-104 | what one release after another may have done: counts only sink, waiters are told by the first that concerns them, spared objects keep what they have |
| `KernelObjects.Kernel.Enter` | kernelmode/kernel/interrupt/interrupt.c:408-520 | each entry does what its relation says: who is woken with what and in which order, what the waiting thread gets, which objects, handles, processes and threads come and go, what a forked process inherits, and what stays as it is; an entry that is not allowed changes nothing |
| `KernelSteps.ExitCodeHeard` | kernelmode/kernel/process/process.c:167-201 | whoever waits for a process after it was killed goes on with its exit code |
| `KernelSteps.ForkedChild` | kernelmode/kernel/process/process.c:77-118 | after a fork parent and child have the same objects under the same handles, and the child no others but for a handle to itself |
| `KernelSteps.TokenKept` | kernelmode/kernel/process/semaphore.c:149-178 | a token given while nobody waits lets the next wait through if and only if the counter does not wrap around |
| `KernelObjects.Kernel.Run` | kernelmode/kernel/interrupt/interrupt.c:408-520 | in every run the invariant holds after each kernel entry, kernel code keeps no reference for itself, and each entry does what it is for and nothing else |
| `Lifecycle.Partition` | kernelmode/kernel/process/thread.c:80-304 | a live thread hangs in exactly one list, once, in the run list exactly if not blocked; a dead one in none |
| `Lifecycle.NoLostReadiness` | kernelmode/kernel/process/event.c:186-212 | while a thread waits for a wake-all event, every sub-object attached when it began hangs in its own object's queue |
| `Lifecycle.FiringWakes` | kernelmode/kernel/process/event.c:299-311 | any such sub-object that fires wakes the thread with its identifier |
| `Lifecycle.NobodySleepsOnTrue` | kernelmode/kernel/process/semaphore.c:149-178 | waiters of semaphores, threads and processes wait for something that has not happened; those of a device do if and only if it is not late |
| `Lifecycle.WakeKeepsLedger` | kernelmode/kernel/include/process/object.h:89-103 | waking changes no reference count and no membership |
| `Timers.FireExact` | kernelmode/kernel/process/timer.c:206-212 | after firing, a periodic timer lies in the future, a whole number of intervals on, if and only if the product fits into 32 bits; otherwise it stays in the past |
| `Timers.DueExact` | kernelmode/kernel/process/timer.c:286-291 | the product always fits for a timer late by at most one tick |
| `Timers.SettlesStep` | kernelmode/kernel/process/timer.c:286-291 | a firing moves a timer that settles on and keeps it so; one that does not settle stays due and unsettled |
| `Timers.SettlesExact` | kernelmode/kernel/process/timer.c:281-304 | firing again and again gets a timer ahead of the clock if and only if no common multiple of interval and 2^32 lies within the span since its timeout |
| `Timers.TickGoesOn` | kernelmode/kernel/process/timer.c:281-304 | while a timer that does not settle is in the list, the loop goes on, whichever timer fires |
| `Timers.TimerQueue.TickLate` | kernelmode/kernel/process/timer.c:274-307 | from any state in which all timers settle, the tick ends with every active timer in the future |
| `Timers.StaleTimerHangs` | kernelmode/kernel/process/timer.c:195-307 | a 1 ms timer left alone for 2^32 - 1 ms: wait reports nothing, and the next tick moves it once and then never again |
| `Timers.StaleRun` | kernelmode/kernel/process/timer.c:163-307 | that state is reached by a write, a shutdown, ticks and a wait |
| `Timers.TimerQueue.Activate` | kernelmode/kernel/process/timer.c:81-93 | the list stays sorted; the timer goes behind those that are not later |
| `Timers.TimerQueue.Deactivate` | kernelmode/kernel/process/timer.c:71-78 | the timer leaves the list, which stays sorted |
| `Timers.TimerQueue.Write` | kernelmode/kernel/process/timer.c:251-264 | timeout and interval set; not overdue if and only if the 64-bit sum does not overflow; -1 for a malformed request |
| `Timers.OverflowRun` | kernelmode/kernel/process/timer.c:251-264 | after one tick, a write of the largest timeout gives a timer that is overdue |
| `Timers.TimerQueue.Wait` | kernelmode/kernel/process/timer.c:195-223 | blocks exactly before the timeout; otherwise reports the events, exactly so if and only if the product fits |
| `Timers.TimerQueue.Tick` | kernelmode/kernel/process/timer.c:274-307 | terminates; the due timers fire once each in list order, a timer that does not repeat with one event and one with interval i with the n events for which timeout + (n - 1) i is reached and timeout + n i is not; all active timers lie in the future, none drifts |
| `Timers.FiringsReport` | kernelmode/kernel/process/timer.c:285-297 | the number of events of a fired timer is one without an interval, and otherwise the number of multiples of the interval reached since the timeout, the timeout included |
| `Timers.TickListStep` | kernelmode/kernel/process/timer.c:274-307 | a fired timer leaves the due ones at the front of the list untouched |
| `TimerObjects.TimerObjects.Write` | kernelmode/kernel/process/timer.c:251-264 | nobody is woken; a waiter is left asleep on a ready timer if and only if there is one and the new timeout, modulo 2^64, is not in the future |
| `TimerObjects.TimerObjects.Wait` | kernelmode/kernel/process/timer.c:195-223 | the thread sleeps at the head of the timer's queue exactly before the timeout; otherwise it goes on with the number of events that the timer reports |
| `TimerObjects.TimerObjects.Tick` | kernelmode/kernel/process/timer.c:274-307 | of every timer that fires all waiters, or the first, go on with its number of events, one for a timer that does not repeat; who waits for another timer is not touched; the kernel's invariant holds |
| `TimerObjects.TimerObjects.StrandedExact` | kernelmode/kernel/process/timer.c:281-304 | a fired timer leaves somebody asleep on it if and only if it does not repeat, wakes one and had more than one waiter |
| `TimerObjects.TimerObjects.Shutdown` | kernelmode/kernel/process/timer.c:158-165 | the timer leaves the list, every waiter gives up with -1 |
| `TimerObjects.OneLeftAsleep` | kernelmode/kernel/process/timer.c:281-304 | two threads wait for a one-shot timer without wakeupAll; after its tick the one that came last goes on with one event, and the other sleeps on a ready timer |
| `TimerObjects.LostWakeup` | kernelmode/kernel/process/timer.c:195-307 | a write makes a timer ready while thread 0 waits for it, thread 1 takes the answer, and thread 0 sleeps on the ready timer after any number of ticks |
| `Blocks.MemMove` | kernelmode/kernel/util/util.c:159-170 | the copy is right however source and destination overlap |
| `Blocks.CopyForward` | kernelmode/kernel/util/util.c:141-147 | ascending copy is right if the destination lies before the source or behind its end |
| `Blocks.AllMoved` | kernelmode/kernel/util/util.c:141-170 | slot by slot copying gives the block move |
| `Pipes.Pipe.Write` | kernelmode/kernel/process/pipe.c:269-317 | as many bytes as fit are appended, readers woken if there is data, -1 once closed; buffer assertions hold |
| `Pipes.Pipe.MakeRoom` | kernelmode/kernel/process/pipe.c:284-304 | compaction and doubling keep the contents and make enough room within 64 KiB |
| `Pipes.Pipe.Read` | kernelmode/kernel/process/pipe.c:329-370 | bytes leave at the front in order, writers woken if there is room, -1 exactly if closed and empty |
| `Pipes.Pipe.Shutdown` | kernelmode/kernel/process/pipe.c:163-183 | writing ends, data is discarded only if the read side is closed, all waiters get -1 |
| `Pipes.Pipe.Wait` | kernelmode/kernel/process/pipe.c:218-257 | readers wait exactly if empty and writeable, writers exactly if full and writeable |
| `Pipes.Pipe.GetStatus` | kernelmode/kernel/process/pipe.c:197-204 | bytes that can be read or written at once, or -1 |
| `Pipes.Pipe.Run` | kernelmode/kernel/process/pipe.c:163-370 | over every run, bytes read followed by bytes buffered (and discarded, once the read side is closed) are the bytes accepted |
| `Handles.HandleTable.Allocate` | kernelmode/kernel/process/handle.c:117-156 | lowest free handle from the hint on; for minimum 3 the lowest from 3 on; for minimum 0 the lowest of all if and only if nothing below the hint is free; -1 exactly if none is free; the table is the old one with that handle added |
| `Handles.NotTheLowest` | kernelmode/kernel/process/handle.c:117-156 | a new table, an object with minimum 3, one with minimum 0: handles 3 and 4, though 0 is free |
| `Handles.HandleTable.Set` | kernelmode/kernel/process/handle.c:168-203 | false exactly from 0x10000 on; the slot written lies outside the table if and only if the handle is a larger table size; otherwise exactly that handle changes |
| `Handles.HandleTable.Get` | kernelmode/kernel/process/handle.c:213-217 | what the map says |
| `Handles.HandleTable.Release` | kernelmode/kernel/process/handle.c:227-260 | exactly that handle goes, also across the quarter-size shrink, which happens only if it was the last in use; true exactly if it was in use |
| `Handles.HandleTable.Fork` | kernelmode/kernel/process/handle.c:68-87 | the same handles with one reference of its own for each |
| `Handles.HandleTable.Free` | kernelmode/kernel/process/handle.c:94-104 | every reference taken is given back |
| `Handles.GrowthStops` | kernelmode/kernel/process/handle.c:175-187 | growth ends at the handle itself if and only if the handle is a larger table size |
| `Handles.OverrunExample` | kernelmode/kernel/process/handle.c:168-203 | in a new table, setting handle 0x200 writes behind the end; 0x1FF and 0x201 do not |
| `Handles.ObjectsUpdate` | kernelmode/kernel/process/handle.c:189-191 | replacing a slot exchanges one reference |
| `Intervals.InsertUnion` | kernelmode/kernel/memory/paging.c:391-439 | a canonical list stays canonical and its union becomes the old one and the new range |
| `Intervals.Unique` | kernelmode/kernel/loader/elf.c:42-85 | a canonical list is determined by the set it stands for |
| `Intervals.OrderIrrelevant` | kernelmode/kernel/loader/elf.c:42-85 | insertions of the same pages give the same list in any order |
| `Intervals.BothForms` | kernelmode/kernel/memory/paging.c:391-439 | the two loops on the same non-empty ranges give the same list; the array form refuses exactly if a step needs more than 1024 entries |
| `Intervals.EmptyEntry` | kernelmode/kernel/memory/paging.c:391-439 | an empty range leaves the array form canonical if and only if it touches a range that is there |
| `Intervals.EmptyEntryExample` | kernelmode/kernel/memory/physmem.c:183 | an empty module list at a page boundary leaves an empty entry |
| `Intervals.BootMap.InsertBootMap` | kernelmode/kernel/memory/paging.c:391-439 | the shifting loops compute the insertion; the assertion fires exactly if 1024 entries are not enough |
| `Intervals.PageList.InsertRequiredPage` | kernelmode/kernel/loader/elf.c:42-85 | the list loop computes the same insertion and ignores empty ranges |
| `Intervals.SectionExact` | kernelmode/kernel/loader/elf.c:139-147 | the range of a section is the pages in which it has bytes (or, without bytes, the page its unaligned address is in) without the last page of the address space |
| `Intervals.LoadPages` | kernelmode/kernel/loader/elf.c:126-155 | stops if and only if the NULL page or a mapped page below the last is needed; otherwise no page is allocated twice, exactly the pages some section needs are, but for the last, and none is missing if and only if every section ends below the last page |
| `Intervals.StoppedBy` | kernelmode/kernel/loader/elf.c:149-155 | a section in the NULL page, and one in the descriptor-table page that every process has, stop the kernel |
| `Intervals.LastPageExample` | kernelmode/kernel/loader/elf.c:142-143 | sixteen bytes in the last page: needed and not allocated |
| `LinkedLists.AddAfter` | kernelmode/kernel/include/util/list.h:75-81 | the element is linked behind the reference element, the ring stays intact |
| `LinkedLists.AddBefore` | kernelmode/kernel/include/util/list.h:92-98 | the element is linked in front of the reference element |
| `LinkedLists.Remove` | kernelmode/kernel/include/util/list.h:111-116 | the element leaves the ring and keeps its stale pointers |
| `LinkedLists.Empty` | kernelmode/kernel/include/util/list.h:60-63 | true exactly if the ring is the head alone |
| `LinkedLists.MoveAll` | kernelmode/kernel/include/util/list.h:148-151 | the deletion-safe loop visits every element once, in order, though each leaves the list for another while visited |
| `LinkedLists.RemovedElements` | kernelmode/kernel/include/util/list.h:111-116 | on the elements this is removal from a sequence, as the other modules use it |
| `ShellArgs.ParseArgs` | usermode/shell.c:66-228 | the buffer ends up holding exactly the arguments of the line as separate strings, for every line; nothing behind the line and no slot behind the last argument changes |
| `ShellArgs.LeftStep` | usermode/shell.c:78-196 | character by character the state machine yields what the grammar of a line says |
| `ShellArgs.RoundTrip` | usermode/shell.c:66-228 | any list of words and bars, escaped and put into quotes, is read back as it was, as far as there is room |
| `ShellArgs.BareWord` | usermode/shell.c:66-228 | an escaped word without quotes around it is read back as one argument, and the rest of the line follows |
| `ShellArgs.Plain` | usermode/shell.c:139-152 | a word without spaces, bars, quotes and backslashes is written as it is |
| `ShellArgs.OnlyWritable` | usermode/shell.c:150-196 | every word that is read could have been written so, unless the line ends in a lone backslash: a backslash in front of n, r, a quote, a space or a bar never gets into a word |
| `ShellArgs.EscapeExample` | usermode/shell.c:175-178 | `echo a\nb` has a line feed in its second argument |
| `ShellArgs.AtMostOneMore` | usermode/shell.c:66-228 | at most maxArgs + 1 arguments |
| `ShellArgs.OneMoreExact` | usermode/shell.c:85-137 | one argument more than the limit if and only if what is left of the line after maxArgs - 1 arguments begins with a word that is ended by a bar |
| `ShellArgs.TerminatorFits` | usermode/shell.c:378-381 | the two terminators fit into the caller's array if and only if the 30th argument is not such a word |
| `ShellArgs.OneMoreExample` | usermode/shell.c:378-381 | for every limit, the caller's 30 included, a line with one argument more |
| `ShellArgs.ArgsStay` | usermode/shell.c:66-228 | writing from the current word on leaves finished arguments alone |

## Left out

- Paging.Vm.MapRemoteMemory: from the kernel and without user permission, as all callers use it, and with source pages that are not copy-on-write; the reservations made first are not modelled apart, as all of them are filled or the kernel stops.
- Paging.Vm.AllocatePhysMemFixed: a range that wraps around the address space, which no caller asks for; what the rollback releases (in the kernel's space) before the kernel stops.
- Paging.Vm.ReAllocatePhysMem: in the kernel's space only, as its only caller uses it, and with the grown block ending below the page-directory area.
- Paging: page-in and page-out (unimplemented stubs), unpageable marks, faults in kernel mode, the pages of the reference-count table itself, hardware access (CR0, CR3, TLB), clearing of new page-table frames.
- Paging.Vm.TryAllocatePhysMem: the length is bounded so that the 32-bit sum of the search cannot wrap; AreaSearch.TrySearchArea covers longer ones.
- Paging.Vm.ForkProcessPageTable: reserved entries make the source's assertions fire; between kernel entries there are none in the model.
- Kernel heap: running out of memory stops the system in the paging layer, so the area the paging layer offers is a parameter; requests are below 2 GB after rounding (HeapState.LargeSizeExact says what happens above).
- Kernel objects: pipes and timers take part in waiting as devices that are ready with a result or not; TimerObjects joins the timers to them, the behaviour of pipes is in Pipes.
- Kernel objects: the choice of the slot for a new handle, which is in Handles; a handle that is asked for is any free slot, and the handles of a table are released in any order.
- Kernel objects: events attached in a cycle recurse without end in the source, so attaching asks for an order that excludes it; no fairness is claimed, as queues are filled at the head.
- Kernel objects: registers, stacks and FPU state of threads, the scheduler loop, release of thread stacks.
- Timers: the clock is assumed not to reach the last 2^32 ms of its 64-bit range.
- TimerObjects.TimerObjects.Tick: from states in which no active timer is overdue; Timers.TimerQueue.TickLate covers the clock's side of the others.
- Handles: memory behind the table after an overrun of handleSet is not modelled.
- ELF loader: reading headers and sections out of the file image, and the copying pass.
- Syscall dispatcher, filesystem, consoles, fonts, keyboard, other user programs and the C library.
