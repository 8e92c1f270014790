# A verified model of the kernel's stateful core

A Dafny project about the parts of the MikanOS-derived kernel under `kernel/` whose correctness rests on state: address
spaces with copy-on-write, the run-queue scheduler with its mailboxes and timers, the FAT32 volume, the xHCI rings and
the bring-up of USB ports, the compositor, and pipes. `dafny verify dfyconfig.toml` checks all of it.

Each part has a short specification that a reader can take in at once (private memory, strict priority, a string of
bytes, first in first out, the painter's algorithm) and the kernel's own way to it: page tables walked in place, deferred
flags, cursors, cycle bits, partial repaints. Objects that the kernel changes in place are classes here, with the same
fields; their methods keep the kernel's loops and branches, and are proved against functions on values. The properties
that span operations and whole runs are lemmas about these functions.

| file | what it models |
|---|---|
| `FrameAllocator.dfy` | the bitmap of frames: marking, freeing, the skipping first-fit search, the firmware's memory map |
| `PageTables.dfy`, `PageViews.dfy` | physical memory as frames of 512 words; which frame stands at which place of which space's tree; the processor's walk |
| `Paging.dfy` | SetupPageMap, CopyPageMaps, CleanPageMap, CopyOnePage over those frames |
| `PrivateMemory.dfy` | the specification: every space has a memory of its own |
| `MappedFiles.dfy`, `Processes.dfy` | the bytes of pages, demand paging, file windows, page faults, system calls, loading and ending apps, whole runs of them |
| `Scheduler.dfy`, `TaskManager.dfy` | the run queues as a value, and the task manager's methods on them |
| `Fairness.dfy` | how long a task waits for its turn while others come and go |
| `TaskProtocol.dfy` | mailboxes and WaitFinish over interleavings of critical sections |
| `Timers.dfy` | the timer queue, its sentinel and the tick |
| `FatChains.dfy`, `FileBytes.dfy`, `FileWriting.dfy`, `FileDescriptors.dfy` | cluster chains, and reading and writing files along them |
| `ShortNames.dfy`, `Directories.dfy` | 8.3 names, searching paths, creating files |
| `Rings.dfy` | producer and consumer of TRB rings, one memory access at a time (sections 4.9.2 to 4.9.4 of the xHCI specification) |
| `Ports.dfy` | the phases of root hub ports (section 4.3 of the xHCI specification) |
| `FrameBuffers.dfy`, `Painting.dfy`, `Layers.dfy` | rectangles, copies between buffers, windows, layers and partial repaints |
| `Pipes.dfy` | the byte stream in 16-byte messages |

Where the code does not do what one would expect, the model follows the code and a lemma says exactly when it does:

- `FileDescriptor::Write` takes `min(len, room)` bytes a round, not `min(len - total, room)`, and goes on at the last cluster
  of an extension: `FileBytes.WrittenExact` and the contract of `FileDescriptors.FileDescriptor.Write` give the exact
  conditions, `FileBytes.WriteTooMuch` small cases.
- `SetupPageMap` grants rights to entries that are present already, which gives an image's page away:
  `Paging.GrantingIsSafeIffOwn`.
- System calls store through an app's pointers while CR0.WP is clear, so a page that is still shared is changed in the
  image: `Paging.StoreReachesImageIff`, `Processes.Processes.KernelStore`. For both, `Processes.Processes.SharedPageExample`
  loads an app to which it happens.
- `CreateFile` sets the name and the size of the entry that it takes and nothing else, so a file in the place of a removed
  one begins with the removed file's cluster and attributes: `Directories.CreateThenFind`.
- `Ring::Push` has no test for a full ring: `Rings.OneTooMany` says when a consumer loses sight of it, and
  `Rings.OneTooManyReached` leads every ring there.
- When an address has been assigned, only the first waiting port is looked at: `Ports.StarvesIff`, `Ports.WaitsForEver`.
- A transparent window ignores the area that is being repainted: `Painting.StaysCleanIff`.
- A `Read` of no bytes from a pipe returns 0 like the end of the stream: `Pipes.ZeroRead`.

## Model

| member | source | states |
|---|---|---|
| `FrameAllocator.FirstFitIsLowest` | kernel/memory_manager.cpp:10-34 | what first fit answers is a free run of n frames inside the range, no lower start is one, and it answers nothing exactly when there is none |
| `FrameAllocator.SkipBehind` | kernel/memory_manager.cpp:26-30 | a frame in use rules out every start up to and including itself: jumping to start + i + 1 loses no candidate |
| `FrameAllocator.MaskBits` | kernel/memory_manager.cpp:63-79 | setting or clearing a bit of a 64-bit line changes that bit and none of the other 63 |
| `FrameAllocator.WithBitIn` | kernel/memory_manager.cpp:63-79 | for two frames of one line, the updated line holds the mark for the one and the old bit for the other |
| `FrameAllocator.BitmapMemoryManager.SetBit` | kernel/memory_manager.cpp:70-79 | the word-packed bitmap gains or loses exactly this frame |
| `FrameAllocator.BitmapMemoryManager.Allocate` | kernel/memory_manager.cpp:10-34 | on the bitmap: the answer is the lowest free run inside the range and exactly its frames become used; it fails, and changes nothing, exactly when there is no such run |
| `FrameAllocator.BitmapMemoryManager.Free` | kernel/memory_manager.cpp:36-41 | exactly the given frames become free |
| `FrameAllocator.BitmapMemoryManager.MarkAllocated` | kernel/memory_manager.cpp:43-47 | exactly the given frames become used |
| `FrameAllocator.BitmapMemoryManager.LoadMemoryMap` | kernel/memory_manager.cpp:96-126 | after the loop over the firmware's memory map, a frame below the range's end is free exactly when an available region covers it, and no available frame is above it |
| `PageTables.AttachKeeps` | kernel/paging.cpp:45-59 | a new frame in an empty place keeps the invariant: every table and private page has one position in one space's tree, shared pages are read-only image pages, all of them are allocated |
| `PageTables.RewriteKeeps` | kernel/paging.cpp:150-162 | so does rewriting an entry to a good one |
| `PageTables.DetachKeeps` | kernel/paging.cpp:99-124 | so does clearing an entry and freeing the frame below it, once nothing hangs below it |
| `PageTables.AddRootKeeps` | kernel/terminal.cpp:126-139 | so does a new root table |
| `PageTables.RemoveRootKeeps` | kernel/terminal.cpp:141-147 | so does freeing a root table whose app half is empty |
| `PageViews.WalkIsEntry` | kernel/paging.hpp:30-90 | the processor's four-level walk over the raw frames finds exactly the level-1 entry that the tree of positions has for the address |
| `PageViews.OthersSee` | kernel/paging.cpp:203-230 | what one space does is invisible in every space that is not based on it: same entries, same page contents |
| `PageViews.EntryTarget` | kernel/paging.cpp:203-241 | a read-only page shows the image's frame, any other mapped page a frame of the space's own |
| `PageViews.SamePage` | kernel/paging.hpp:30-62 | page numbers made of the four 9-bit parts are equal only for equal parts |
| `PageViews.KernelSeen` | kernel/terminal.cpp:126-139 | in every reachable state, the processor finds for every kernel address the same frame with the same rights in every space as in the kernel's own tables, which never change: the lower half of every root is the kernel's |
| `Paging.StoreReachesImageIff` | kernel/paging.cpp:24-33 | CR0.WP is clear, so kernel-mode stores ignore the rights: a store to a mapped page of an app changes what the app's image shows if and only if the page has not been split from it |
| `Paging.GrantingIsSafeIffOwn` | kernel/paging.cpp:61-97 | SetupPageMap with writable over a page that is present: afterwards a store by the app changes what its image shows if and only if the page was read-only; the invariant survives in the other case only |
| `Paging.AddressSpaces.SetNewPageMapIfNotPresent` | kernel/paging.cpp:45-59 | a present entry keeps its table; otherwise the entry gets a zeroed frame that was not in use; or nothing changes and memory is exhausted |
| `Paging.AddressSpaces.SetupPageMap` | kernel/paging.cpp:61-97 | maps min(num, rest of the table) consecutive pages: present ones keep their frames, new ones get zeroed frames of their own, every translation outside is unchanged, the rest is counted exactly, and it fails only when no frame of the allocator's range is free |
| `Paging.AddressSpaces.CopyPageMaps` | kernel/paging.cpp:203-230 | the copy gets tables of its own and shares the image's pages read-only; addresses outside, other spaces and all page contents are unchanged |
| `Paging.AddressSpaces.CleanPageMap` | kernel/paging.cpp:99-124 | unmaps everything up to the end of the table, frees the private tables and pages, each while it is in use, and no image page, and leaves other spaces alone |
| `Paging.AddressSpaces.FreeFrame` | kernel/memory_manager.cpp:36-41 | only a frame in use is freed, so none is freed twice: every caller proves it |
| `Paging.AddressSpaces.SetPageContent` | kernel/paging.cpp:150-162 | the level-1 entry of the address points to the new frame and is writable; every other entry is unchanged |
| `Paging.AddressSpaces.CopyOnePage` | kernel/paging.cpp:164-173 | the page becomes a writable private frame with the same bytes, and nothing else changes anywhere; or memory is exhausted and nothing changes |
| `Paging.AddressSpaces.NewPageMap` | kernel/paging.cpp:177-186 | a frame that was not in use, all zero; it fails exactly when no frame of the range is free |
| `Paging.SplitPage` | kernel/paging.cpp:164-173 | pointing the entry at a filled copy keeps the invariant and the bytes that every space sees |
| `Paging.WalkElsewhere` | kernel/paging.cpp:164-173 | filling a frame that is not in use yet changes nobody's walk |
| `PrivateMemory.OwnEventsOnly` | kernel/terminal.cpp:214-252 | non-interference of the simple specification: what a space shows after any run, and which pages its faults give, is decided by the images and its own events |
| `PrivateMemory.WindowsStay` | kernel/paging.cpp:126-148 | every legal event of any space keeps all tasks' windows aligned, apart and large enough for their files |
| `PrivateMemory.StoredWord` | kernel/paging.cpp:164-173 | a store that is served puts the value into its word, and touches no other word of any page |
| `PrivateMemory.StoreHolds` | kernel/paging.cpp:232-250 | after a store, by the app or by a system call for it, the word has the value |
| `PrivateMemory.WordStays` | kernel/paging.cpp:232-250 | memory over whole runs: a word keeps its value through all events of all spaces until its own space stores to it or ends |
| `PrivateMemory.MappedReads` | kernel/syscall.cpp:379-397 | an app that maps a file and then reads behind the address it got finds the file's bytes |
| `PrivateMemory.HeapReads` | kernel/syscall.cpp:367-377 | one that demands pages and then reads there finds zeros in pages of its own |
| `PrivateMemory.OthersView` | kernel/paging.cpp:232-250 | a space whose entries and pages are untouched shows the same memory |
| `PrivateMemory.CopiesView` | kernel/paging.cpp:203-230 | a complete copy of an image's tables shows exactly the image |
| `PrivateMemory.SplitsView` | kernel/paging.cpp:164-173 | splitting a page changes no byte of any view, and makes the page the space's own |
| `PrivateMemory.StoreView` | kernel/paging.cpp:150-173 | storing into a page of one's own changes that page of one's own view |
| `PrivateMemory.Conservation` | kernel/paging.cpp:99-124 | once a space that was built over a state is gone, the allocator's set and all positions are what they were before it |
| `MappedFiles.MapFileKeepsWindows` | kernel/syscall.cpp:379-397 | a new window is page-aligned, holds the file and less than a page more, overlaps no other and lies below the stack |
| `MappedFiles.MapFilesKeepsWindows` | kernel/syscall.cpp:379-397 | so after any sequence of MapFile calls |
| `MappedFiles.WindowPage` | kernel/paging.cpp:136-148 | every page of a window starts at an offset below the file's size, and belongs to no other window |
| `MappedFiles.FindFileMapping` | kernel/paging.cpp:126-134 | the first window that contains the address, or none when none does |
| `MappedFiles.TaskKeepsWindows` | kernel/terminal.cpp:724-735 | starting a task, opening files, demanding pages and clearing the task keep its heap made of whole pages and its windows right |
| `MappedFiles.DemandedIff` | kernel/paging.cpp:232-250 | an unmapped address is served if and only if it is in the heap or in a window |
| `MappedFiles.DemandedByte` | kernel/paging.cpp:136-148 | through a window, the byte at every address is the file's byte at the distance from the window's start, or 0 behind the file's end |
| `MappedFiles.OverlaidByte` | kernel/paging.cpp:136-148 | copying bytes to an address changes exactly the bytes there, whole words or not |
| `MappedFiles.LoadedPage` | kernel/paging.cpp:136-148 | what Load gives from an offset on, copied over a zeroed page, is the page of the file |
| `MappedFiles.LoadPage` | kernel/fat.cpp:325-338 | the same for a file of the volume: the descriptor's Load puts the file's bytes into the page, and leaves the page's own bytes behind the file's end |
| `MappedFiles.BytesOfWord` | kernel/paging.hpp:64-90 | storing eight bytes as a page map entry and reading them back gives the bytes |
| `MappedFiles.WordOfInjective` | kernel/paging.hpp:64-90 | eight bytes read as a page map entry determine the eight bytes: speaking of words loses nothing |
| `MappedFiles.WordBits` | kernel/paging.hpp:64-90 | in the number that the eight bytes are, bits 0 to 2 are the flags and bits 12 to 51 the frame |
| `MappedFiles.OpenedFile` | kernel/syscall.cpp:301-351 | the file gets the lowest descriptor that is not in use, and all others keep their files |
| `MappedFiles.StartedServes` | kernel/terminal.cpp:724-735 | when an app starts, its heap is empty and begins at the first page at or behind the image's end, windows have their place below the stack, and no address is served |
| `MappedFiles.DemandPagesServes` | kernel/syscall.cpp:367-377 | demanding n pages adds exactly the n pages of addresses behind the heap's end to those that are served, with zeros |
| `MappedFiles.MapFileServes` | kernel/syscall.cpp:379-397 | mapping a file adds exactly the addresses of its window, and what was served before is served as before |
| `MappedFiles.MapThenRead` | kernel/syscall.cpp:379-397 | byte k behind the address that MapFile gives is byte k of the file, unless the heap has grown over it |
| `Processes.Seen` | kernel/paging.cpp:232-250 | in every state, the hardware's walk, its rights and the page it finds agree with the space's view, and a writable page is its own |
| `Processes.Processes.SetupPML4` | kernel/terminal.cpp:126-139 | a new space with an empty app half, and with the kernel half of the table that was in use; all other spaces keep their views |
| `Processes.SegmentByte` | kernel/terminal.cpp:88-111 | a loaded segment maps exactly the pages from that of its address up to its end; every byte of a loaded segment is the file's, or 0 up to the size in memory, and every other byte is what it was, 0 in a new page |
| `Processes.Processes.CopyBytes` | kernel/terminal.cpp:104-108 | copying through the page tables, page by page, lays exactly the bytes over the space's pages |
| `Processes.Processes.CopyLoadSegments` | kernel/terminal.cpp:88-111 | the image shows its segments, later ones over earlier ones, and nothing else; the highest end of a segment is returned |
| `Processes.HeapBehindImage` | kernel/terminal.cpp:88-111 | the page boundary behind that end, where the heap begins, lies behind every page of the image |
| `Processes.Processes.LoadApp` | kernel/terminal.cpp:214-252 | the first load builds the image and caches it, every load gives the new space exactly the image's view through read-only pages, and no other view changes |
| `Processes.Processes.StartApp` | kernel/terminal.cpp:724-735 | the task gets the terminal's files, an empty heap behind the image, and room for windows below its stack |
| `Processes.Processes.ExitApp` | kernel/terminal.cpp:738-745 | the task's files and windows are forgotten, the space is gone, the kernel's own table is in use again, and all other views and the images are unchanged |
| `Processes.Processes.PreparePageCache` | kernel/paging.cpp:136-148 | mapping a page and copying what the file's Load gives over it: the page holds the file's bytes from its offset on, followed by zeros |
| `Processes.Processes.HandlePageFault` | kernel/paging.cpp:232-250 | each combination of the error code's bits leads to its case: the page is split and shows the same, or refused, or the page that the specification demands appears (zeros, or the file's page), or the index is out of range |
| `Processes.Processes.Access` | kernel/paging.cpp:232-250 | after an access, with the page fault it may take, its page is there, the space's own if an app was to write it, and otherwise as before or as demanded; or the view is unchanged because nothing serves the address or no frame is free |
| `Processes.Processes.UserStore` | kernel/paging.cpp:232-250 | a user-mode store changes the word in its own view, over the page that was there or the one that the fault gives, and nothing in any other space or image |
| `Processes.Processes.KernelStore` | kernel/syscall.cpp:353-365 | a system call's store to an address of the app is the app's own store if the page is its own or a fault gives it, and otherwise a store to the image that all spaces see which share the page, and nobody else |
| `Processes.Processes.SharedPageExample` | kernel/terminal.cpp:711-722 | loading an app whose image has a page where the stack goes leads to a state where granting write there, or a system call's store, changes the image |
| `Processes.Processes.SysMapFile` | kernel/syscall.cpp:379-397 | a bad descriptor changes nothing; otherwise the caller gets the address and the size of a new window behind which the file's bytes can be read, and the windows stay disjoint and below the stack |
| `Processes.Processes.SysOpenFile` | kernel/syscall.cpp:301-351 | the file gets the lowest descriptor that is not in use, all others keep their files |
| `Processes.Processes.SysDemandPages` | kernel/syscall.cpp:367-377 | the heap grows by the given number of pages and the windows stay as they are |
| `Processes.Processes.Step` | kernel/paging.cpp:232-250 | one event of one space, done by the kernel's code, has exactly the effect that it has on private memories, or no frame is free; no other space or task changes either way, and an app's own event that fails changes nothing |
| `Processes.Processes.Run` | kernel/paging.cpp:203-250 | copy-on-write isolation: over any interleaving of loads, starts, reads, stores, faults, system calls (their stores going to pages of the app's own) and exits in any number of spaces, every space sees what a private copy of its image would show, and images never change; if a frame is missing, memory is exhausted at that point and all other spaces are as they should be |
| `Processes.Processes.RunOn` | kernel/interrupt.cpp:67-87 | the run goes on after an app's page fault without a frame: that app is killed and taken down, and every space that has not been stopped shows what it would show if memory sufficed for all; after a system call's fault without a frame the kernel halts |
| `Processes.Processes.ExecuteFile` | kernel/terminal.cpp:691-745 | running a cached app, until it returns or is killed by a page fault, leaves the allocator's set, all positions and all views as they were before, and the task without files and windows |
| `Processes.SetupGives` | kernel/terminal.cpp:702-735 | before it runs, the app finds what its image shows and, of its own and zeroed, exactly the 17 highest pages of the address space: 16 of stack and above them the arguments |
| `Scheduler.InitialTasks` | kernel/task.cpp:116-127 | the scheduler starts in its invariant, with two tasks: the main task running at the highest level, the idle task runnable at the lowest |
| `Scheduler.CurrentIsTask` | kernel/task.cpp:212-214 | the front of the current level's queue is a runnable task of that level |
| `Scheduler.RotateChooses` | kernel/task.cpp:278-300 | after every rotation the current level is the highest non-empty one and the deferred flag is clear |
| `Scheduler.SwitchKeeps` | kernel/task.cpp:134-141 | so after every switch, and the invariant holds |
| `Scheduler.SleepKeeps` | kernel/task.cpp:143-157 | putting any task to sleep keeps the invariant: every runnable task is once in exactly its level's queue and a sleeping one in none; the task no longer runs |
| `Scheduler.WakeupKeeps` | kernel/task.cpp:170-188 | so does waking a task, at the given level or, without one, at its own |
| `Scheduler.ChangeLevelKeeps` | kernel/task.cpp:250-276 | so does moving a running task to another level, the current one included |
| `Scheduler.WakeupOrder` | kernel/task.cpp:170-188 | a task that is woken, or moved without being the current one, joins the end of its new queue, and the others keep their order in every queue |
| `Scheduler.SleepOrder` | kernel/task.cpp:143-157 | when a task goes to sleep the others keep their order in every queue |
| `Scheduler.RotateOrder` | kernel/task.cpp:278-300 | a rotation puts the current task at the end of its queue or, to sleep, takes it out, and the others keep their order, also when the level changes |
| `Scheduler.WakeupAwake` | kernel/task.cpp:250-253 | a wakeup of a runnable task that names no other level changes nothing at all |
| `Scheduler.WakeupCurrent` | kernel/task.cpp:170-188 | waking or moving a task, the current one included, does not change who runs, and the current level is that task's |
| `Scheduler.SleepCurrent` | kernel/task.cpp:143-157 | nor does putting another task to sleep |
| `Scheduler.SendKeeps` | kernel/task.cpp:69-72 | a message is appended to its receiver's mailbox, the receiver is runnable, and the queues stay right |
| `Scheduler.FinishKeeps` | kernel/task.cpp:216-233 | so does the end of the current task |
| `Scheduler.FinishOrder` | kernel/task.cpp:216-233 | apart from the finished task and its waiter, all tasks keep their order in every queue |
| `Scheduler.RoundRobin` | kernel/task.cpp:278-300 | without wakeups, the k-th switch brings the k-th task of the top queue, cyclically |
| `Scheduler.TurnComes` | kernel/task.cpp:278-300 | every task of the top level runs within one round of its queue |
| `Fairness.BoundedWait` | kernel/task.cpp:134-300 | while a runnable task waits, whatever is woken, put to sleep, moved, created or finished meanwhile, the processor is given away on its level at most as often as there were tasks before it, and it never falls back |
| `TaskProtocol.StepSound` | kernel/task.cpp:69-82 | every critical section of every task keeps scheduler invariant, mailboxes, waiters and exit codes consistent |
| `TaskProtocol.NoLostWakeup` | kernel/task.cpp:143-248 | after any run from boot: no task that is blocked in a receive loop sleeps over a non-empty mailbox, and none that waits for a finished task sleeps |
| `TaskProtocol.ExitCodeOnce` | kernel/task.cpp:216-248 | WaitFinish returns the code the task finished with, to one caller only, whichever of the two comes first |
| `TaskProtocol.TaskStep` | kernel/task.cpp:69-300 | what each critical section does to any task: only a wakeup that names a level changes its level, it starts running exactly when it is woken and stops exactly when it blocks, and its mail is taken from the front and comes in at the end |
| `TaskProtocol.CurrentStays` | kernel/task.cpp:134-300 | the processor is given away only by a timer switch, by a task that blocks and by one that finishes |
| `TaskProtocol.NewTaskRuns` | kernel/task.cpp:129-132 | a new task gets a number that no task ever had, runs at level 1 and has no mail |
| `TaskProtocol.MailInOrder` | kernel/task.cpp:69-82 | over any run, what a task has taken followed by what is in its mailbox is what it had followed by what was sent to it: no message is lost, doubled or overtaken |
| `TaskProtocol.LevelStays` | kernel/task.cpp:170-188 | over any run, a task stays at its level until a wakeup names another one |
| `TaskManager.TaskManager.RotateCurrentRunQueue` | kernel/task.cpp:278-300 | the method's queues, level and flag are those of the rotation whose properties are proved, and it returns the task that was current |
| `TaskManager.TaskManager.SwitchTask` | kernel/task.cpp:134-141 | the state is rotated, the current task has maximal priority, and contexts are switched exactly when the current task has changed |
| `TaskManager.TaskManager.SleepTask` | kernel/task.cpp:143-157 | the new state is that of putting the task to sleep |
| `TaskManager.TaskManager.WakeupTask` | kernel/task.cpp:170-188 | the new state is that of waking the task |
| `TaskManager.TaskManager.ChangeLevel` | kernel/task.cpp:250-276 | the new state is that of the level change |
| `TaskManager.TaskManager.SendMessage` | kernel/task.cpp:201-210 | the message is delivered and the receiver woken, or there is no such task and nothing changes |
| `TaskManager.TaskManager.ReceiveMessage` | kernel/task.cpp:74-82 | the oldest message and the mailbox without it, or none when it is empty |
| `TaskManager.TaskManager.FinishTask` | kernel/task.cpp:216-233 | the new state is that of finishing: exit code recorded, waiter woken, task gone |
| `TaskManager.TaskManager.WaitFinishTurn` | kernel/task.cpp:235-248 | one turn of the waiting loop: the exit code, removed, or registration and sleep |
| `TaskManager.Erase` | kernel/task.cpp:11-15 | every occurrence of the task leaves the queue, the others keep their order |
| `Timers.ExactlyOnce` | kernel/timer.cpp:53-83 | over any run, an ordinary timer is in the log of sent messages as often as it was added once its due tick max(timeout, added + 1) has come, and not at all before |
| `Timers.TimerManager.AddTimer` | kernel/timer.cpp:53-55 | the timer is pending and everything known about earlier ones still holds |
| `Timers.TimerManager.Tick` | kernel/timer.cpp:57-83 | the due timers are sent in the order of their deadlines, at this tick, all others stay; the loop ends although it adds the task timer again, no task timer is lost or doubled, and the switch is asked for exactly when one was due |
| `Timers.TimerManager.OnInterrupt` | kernel/timer.cpp:88-95 | with one task timer, the interrupt handler switches tasks exactly when it is due, and it is due again two ticks later |
| `Timers.TimerManager.Run` | kernel/timer.cpp:53-95 | over any run of interrupts and added timers: tasks are switched at the due tick of the task timer and at every second tick from then on, and at no other |
| `Timers.QueueNotEmpty` | kernel/timer.cpp:49-51 | with the sentinel in it the queue is never empty, so top is always defined |
| `FatChains.Acyclic` | kernel/fat.cpp:135-166 | a chain that ends has no loop: all its clusters are different |
| `FatChains.MeetingChains` | kernel/fat.cpp:69-75 | two chains that meet have the same rest |
| `FatChains.NextInChain` | kernel/fat.cpp:69-75 | NextCluster follows the chain, and answers the one end mark behind its last cluster |
| `FatChains.LowestFreeAre` | kernel/fat.cpp:147-166 | the clusters taken are free, different and ascending, and as many as asked for if there are that many |
| `FatChains.LowestFreeLowest` | kernel/fat.cpp:147-166 | no free cluster below them has been passed over |
| `FatChains.ExtendCluster` | kernel/fat.cpp:147-166 | from any cluster of a chain: the chain becomes the old one followed by the n lowest free clusters, its last cluster is returned, no other entry of the table changes |
| `FatChains.AllocateClusterChain` | kernel/fat.cpp:238-252 | the max(n, 1) lowest free clusters become a new chain, the first one is returned, no other entry changes |
| `FatChains.LinkedFamily` | kernel/fat.cpp:147-166 | extending one chain keeps the table a family of disjoint, acyclic, terminated chains and all other chains as they are |
| `FatChains.NewFamily` | kernel/fat.cpp:238-252 | so does allocating a new chain, whose head is not yet in use |
| `FatChains.FreeLeft` | kernel/fat.cpp:147-166 | exactly the linked clusters are no longer free |
| `FileDescriptors.DirectoryEntry.SetFirstCluster` | kernel/fat.hpp:49-74 | the two 16-bit halves give back every 32-bit cluster number, and the high one is 0 exactly for numbers that fit the low one |
| `FileDescriptors.FileDescriptor.Read` | kernel/fat.cpp:258-281 | the next min(len, rest) bytes of the file, across clusters; the cursor moves by that many, and nothing else changes |
| `FileDescriptors.FileDescriptor.ReadAll` | kernel/fat.cpp:258-281 | for any sequence of lengths the pieces join to the bytes from the cursor up to the sum of the lengths or the end of the file |
| `FileDescriptors.FileDescriptor.Load` | kernel/fat.cpp:325-338 | the bytes at an offset up to the file's size, without moving the cursor |
| `FileDescriptors.LoadLikeRead` | kernel/fat.cpp:325-338 | Load(offset) returns what Read returns after offset bytes have been read |
| `FileBytes.WrittenExact` | kernel/fat.cpp:302-318 | Write stores and counts as many bytes as it was given if and only if they fit the cluster, or start one and fit it, or the rest is a multiple of the cluster size; otherwise more |
| `FileBytes.WriteTooMuch` | kernel/fat.cpp:313-314 | small calls that go wrong: 3 bytes stored for 2, 8 for 5, 8 for 6 |
| `FileDescriptors.FileDescriptor.Write` | kernel/fat.cpp:283-323 | for every length: the exact number of bytes stored and counted, the new file size, which clusters are added; and, if at most one cluster is added, the bytes stand behind the old ones, while otherwise the first added cluster is counted as written but still has its old bytes |
| `FileDescriptors.WriteAll` | kernel/fat.cpp:283-323 | any sequence of writes to a new file that stay inside clusters, on a volume with as many free clusters as the bytes take: the content is their concatenation and the size its length |
| `FileDescriptors.WriteThenRead` | kernel/fat.cpp:258-323 | reading such a file back in pieces of any lengths gives the beginning of what was written |
| `FileDescriptors.WriteKeepsOthers` | kernel/fat.cpp:283-323 | whatever is written, every other file keeps its chain and its bytes |
| `ShortNames.SetFileName` | kernel/fat.cpp:189-204 | up to eight capitals before the last dot and three behind it, padded with spaces |
| `ShortNames.UpperLetters` | kernel/fat.cpp:114-129 | the 26 small letters become the capitals, no other byte is changed |
| `ShortNames.NameForAt` | kernel/fat.cpp:189-204 | for any name, long ones included: the byte of it from which each of the eleven bytes stored comes, none of which is a small letter |
| `ShortNames.ExpandDotless` | kernel/fat.cpp:114-129 | a search for a name without a dot compares its bytes with the entry's one after the other, on into the extension |
| `ShortNames.NameIsEqual` | kernel/fat.cpp:114-129 | true exactly for entries whose name is the expansion of the given name |
| `ShortNames.FormatName` | kernel/fat.cpp:47-67 | base without trailing spaces, and a dot and the extension unless that is empty |
| `ShortNames.FormatStored` | kernel/fat.cpp:47-67 | for a valid 8.3 name, SetFileName then FormatName gives the name in capitals |
| `ShortNames.ExpandValid` | kernel/fat.cpp:114-129 | for a valid 8.3 name, the search compares with exactly what SetFileName stores |
| `ShortNames.FoundIff` | kernel/fat.cpp:114-204 | an entry stored for one valid name is found by another if and only if they differ in case only |
| `Directories.DirectoryVolume.FindFile` | kernel/fat.cpp:77-112 | the loops over clusters and entries, and the recursion over path elements, find what the path means: the first entry of each name before the end mark, through directories, stopping early at a file |
| `Directories.DirectoryVolume.AllocateEntry` | kernel/fat.cpp:168-187 | the first entry that may be taken, or the first of a new zeroed cluster; nothing else changes |
| `Directories.DirectoryVolume.CreateFile` | kernel/fat.cpp:206-236 | the error of each kind of path, without any change; otherwise the parent directory gets the entry, with name and size set and its other fields kept |
| `Directories.InsertedWellFormed` | kernel/fat.cpp:168-236 | directories stay well formed, also when a cluster is added: only end marks behind the first one, and directories lead to directories |
| `Directories.Created` | kernel/fat.cpp:206-236 | the outcome of CreateFile for a name that was not in the directory has all that the theorems on paths assume |
| `Directories.InsertedLookup` | kernel/fat.cpp:77-112 | after a creation the new name is found at its entry, and every other name in every directory where it was, or not at all as before |
| `Directories.PathsKept` | kernel/fat.cpp:77-112 | after a creation a path means something else if and only if it leads to the new name in its directory; then it was not found before and is the new entry now; every other path is as before, found or not |
| `Directories.CreateThenFind` | kernel/fat.cpp:77-236 | a file created under a valid name that was not there, in the root or behind any directory's path, is found by that path, its entry shows the name in capitals with size 0 and takes the first end mark or removed entry, whose other fields it keeps (no cluster in a new cluster of zeros), and the directories stay well formed |
| `Directories.PathDivided` | kernel/fat.cpp:206-225 | CreateFile divides such a path into the directory and the name |
| `Directories.ParentCases` | kernel/fat.cpp:206-225 | for every path: nothing behind the last slash is no file, nothing before it or no slash is the root, otherwise it is the directory that the part before it leads to, or not found if it leads nowhere |
| `Directories.TrailingSlash` | kernel/fat.cpp:77-112 | a slash behind a path finds the same entry and is always reported; without it a slash is reported only where the search ended at a missing name or at one that is no directory |
| `Rings.StepKeeps` | kernel/usb/xhci/ring.cpp:31-55 | every single store or load of producer and consumer keeps the invariant on cycle bits, unread slots and half-written slots |
| `Rings.ArrivesInOrder` | kernel/usb/xhci/ring.cpp:31-55 | over any interleaving and any number of wraps: what the consumer has taken is, whole and in order, the beginning of what was pushed, while at most buf_size - 2 are outstanding |
| `Rings.SeesExactly` | kernel/usb/xhci/ring.cpp:102-115 | the cycle bit of the consumer's slot matches if and only if something is there for it |
| `Rings.Progress` | kernel/usb/xhci/ring.cpp:102-115 | a consumer that looks takes the next TRB, or follows the link first |
| `Rings.OneTooMany` | kernel/usb/xhci/ring.cpp:40-55 | with buf_size - 2 TRBs outstanding, another push leaves the consumer seeing them if and only if it does not stand at the link, whose cycle bit turns under it |
| `Rings.OneTooManyReached` | kernel/usb/xhci/ring.cpp:40-55 | on every ring with a link, a run from its beginning with room for each push leads there: after one push more the ring is full and its consumer sees nothing |
| `Rings.FourWrites` | kernel/usb/xhci/ring.cpp:31-38 | four stores make the whole TRB with the producer's cycle bit |
| `Rings.Ring.CopyToLast` | kernel/usb/xhci/ring.cpp:31-38 | the memory after each store is that of the corresponding producer step, the word with the cycle bit last |
| `Rings.Ring.Push` | kernel/usb/xhci/ring.cpp:40-55 | the stores of the TRB and, at the end, of the link are exactly the machine's steps in order; index and cycle bit wrap as they should and the TRB's place is returned |
| `Rings.EventRing.HasFront` | kernel/usb/xhci/ring.hpp:88-90 | true if and only if an event is outstanding |
| `Rings.EventRing.Front` | kernel/usb/xhci/ring.hpp:92-94 | the oldest outstanding event |
| `Rings.EventRing.Pop` | kernel/usb/xhci/ring.cpp:102-115 | that event, and only that, is taken; the consumer wraps with its cycle bit |
| `Ports.EventKeeps` | kernel/usb/xhci/xhci.cpp:91-284 | every event keeps it: the ports in reset, slot enabling or addressing are exactly {addressing_port}, resets and address assignments alternate, and what has been done for each port is exactly the part of the standard sequence (reset, Enable Slot, Address Device, addressed, initialize, Configure Endpoint, configured) that its phase stands for; and no port's phase goes back |
| `Ports.OneAtATime` | kernel/usb/xhci/xhci.cpp:25-46 | over any run of events: at most one port is between reset and address, and every port goes through the steps in their order, none missing and none twice |
| `Ports.EventMoves` | kernel/usb/xhci/xhci.cpp:91-284 | each event moves exactly the ports that it concerns, each by the one step that is its turn: progress as well as restraint |
| `Ports.RefusedIff` | kernel/usb/xhci/xhci.cpp:91-284 | an event is answered with an error exactly when its slot is unknown, its transfer has failed, its port is in another phase or its speed is unknown |
| `Ports.Refused` | kernel/usb/xhci/xhci.cpp:91-284 | and then it changes nothing |
| `Ports.BroughtUp` | kernel/usb/xhci/xhci.cpp:91-284 | a port that is being reset is configured, by exactly the seven steps of the standard sequence, once its successes have come in their order, whatever else happens in between |
| `Ports.StarvesIff` | kernel/usb/xhci/xhci.cpp:257-266 | when an address is assigned, ports keep waiting with nobody being addressed if and only if the first waiting port has been disconnected |
| `Ports.NoStarving` | kernel/usb/xhci/xhci.cpp:257-266 | if waiting ports stay connected, no port waits while addressing_port is 0, over any run |
| `Ports.WaitsForEver` | kernel/usb/xhci/xhci.cpp:257-266 | over any run in which a waiting port stays disconnected, no port that waits behind it is ever reset |
| `Ports.DisconnectedExample` | kernel/usb/xhci/xhci.cpp:257-266 | a run after which a connected port waits for ever because the one before it has gone |
| `Ports.PortManager.ResetPort` | kernel/usb/xhci/xhci.cpp:91-113 | not connected: nothing; another port busy: it waits; otherwise it becomes addressing_port |
| `Ports.PortManager.OnPortStatusChange` | kernel/usb/xhci/xhci.cpp:197-210 | the event's effect and error are those of the transition whose properties are proved |
| `Ports.PortManager.OnTransfer` | kernel/usb/xhci/xhci.cpp:212-228 | so for transfer events, with endpoint configuration when the device is initialized |
| `Ports.PortManager.OnEnableSlotDone` | kernel/usb/xhci/xhci.cpp:236-241 | so for completed Enable Slot commands |
| `Ports.PortManager.OnAddressDeviceDone` | kernel/usb/xhci/xhci.cpp:242-268 | so for completed Address Device commands, whose loop hands over to the first waiting port |
| `Ports.PortManager.OnConfigureEndpointDone` | kernel/usb/xhci/xhci.cpp:269-281 | so for completed Configure Endpoint commands |
| `Ports.PortManager.OnConfigurePort` | kernel/usb/xhci/xhci.cpp:440-445 | so for the scan of the ports at start |
| `FrameBuffers.AndContains` | kernel/graphics.hpp:77-89 | a point is in the intersection if and only if it is in both rectangles, for all rectangles, also those that only touch |
| `FrameBuffers.AndProper` | kernel/graphics.hpp:77-89 | the intersection of proper rectangles has no negative size and lies in both |
| `FrameBuffers.FrameBuffer.Copy` | kernel/frame_buffer.cpp:59-86 | the pixels of the area that exist in both buffers come from the source at the right offset, all others are unchanged, for any positions and any proper area |
| `FrameBuffers.FrameBuffer.Move` | kernel/frame_buffer.cpp:88-109 | every pixel of the destination is the old pixel of the source rectangle, even where they overlap; all others are unchanged |
| `Layers.Window.DrawTo` | kernel/window.cpp:76-98 | opaque windows show their part of the area, transparent ones all their coloured pixels wherever the area is, clipped to the screen |
| `Layers.LayerManager.Draw` | kernel/layer.cpp:84-89 | the whole stack is drawn over the back buffer's area in order, and exactly the area is copied to the screen |
| `Layers.LayerManager.DrawLayer` | kernel/layer.cpp:91-113 | so for a layer and those above it, in its window or the given part of it |
| `Layers.DrawnPartContains` | kernel/layer.cpp:91-113 | a point is drawn if and only if it is in the window and, when a part is given, at a place of that part relative to the window |
| `Layers.LayerManager.Move` | kernel/layer.cpp:115-122 | with an opaque full-screen bottom layer and transparency on top only, a clean screen is clean after the move: back buffer and screen equal a full repaint by the painter's algorithm |
| `Painting.MoveCleans` | kernel/layer.cpp:115-122 | the same for one pixel: painting the old place and then the layer and those above it is a full repaint |
| `Painting.DrawCleans` | kernel/layer.cpp:91-113 | if only an opaque layer's own place is out of date, drawing it repairs the pixel |
| `Painting.DrawAreaCleans` | kernel/layer.cpp:84-89 | drawing the stack in an area makes it clean there and keeps the rest clean |
| `Painting.CloseCleans` | kernel/layer.cpp:324-341 | closing a layer and painting its place is a full repaint of the remaining stack |
| `Painting.StaysCleanIff` | kernel/layer.cpp:84-89 | for any transparency: a repaint elsewhere keeps a pixel clean if and only if no transparent layer has a colour there or the winning one is right |
| `Painting.StrayExample` | kernel/window.cpp:84-97 | a transparent layer below an opaque one comes to the front when something else is repainted |
| `Painting.ColorShown` | kernel/window.cpp:76-98 | pixel (x, y) of a window is shown at that distance from its place, unless it has the transparent colour, and nothing else is |
| `Painting.PaintTopmost` | kernel/layer.cpp:84-89 | a full repaint shows at each point the colour of the highest layer that has one there |
| `Layers.LayerManager.UpDown` | kernel/layer.cpp:133-156 | the others keep their order, and the layer comes to the given height or on top, whether it was in the stack or not; a negative height hides it |
| `Layers.LayerManager.Hide` | kernel/layer.cpp:158-164 | the layer leaves the stack and the others keep their order |
| `Layers.PutAmong` | kernel/layer.cpp:133-156 | a layer put among others is found at the given height, and without it the others are as before |
| `Layers.LayerManager.GetHeight` | kernel/layer.cpp:198-205 | the first place of the layer, or -1 when it is not shown |
| `Layers.ActiveLayer.Activate` | kernel/layer.cpp:231-252 | the layer ends up directly below the mouse, the others keep their order, and a clean screen stays clean |
| `Layers.SamePaint` | kernel/layer.cpp:133-156 | where a layer has no colour its place in the stack does not matter |
| `Pipes.Conservation` | kernel/terminal.cpp:1006-1066 | over any run of sends, other messages, FinishWrite and reads: bytes written before the end = bytes read ++ leftover ++ queued |
| `Pipes.EndExactly` | kernel/terminal.cpp:1006-1043 | a read of at least one byte reports the end if and only if the end was written and everything before it has been read |
| `Pipes.EventKeeps` | kernel/terminal.cpp:1006-1066 | every event keeps that, with leftovers and payloads of at most 16 bytes |
| `Pipes.ReadKeeps` | kernel/terminal.cpp:1006-1043 | a read gives exactly min(len, n) bytes, n being those left over from the last message or else those of the next pipe message, and sleeps exactly when there is neither; the bytes are the next ones of the stream |
| `Pipes.ZeroRead` | kernel/terminal.cpp:1007-1012 | a read of no bytes returns 0 although the stream has not ended |
| `Pipes.WriteAdds` | kernel/terminal.cpp:1045-1058 | the chunks of one Write add exactly its bytes to the stream |
| `Pipes.PipeDescriptor.Read` | kernel/terminal.cpp:1006-1043 | the loop over the mailbox and the buffer of leftovers do what the stream's transition says, including sleeping when nothing is there |
| `Pipes.PipeDescriptor.Write` | kernel/terminal.cpp:1045-1058 | the messages sent are the chunks of the buffer in order, all but the last of 16 bytes, and its length is returned |
| `Pipes.PipeDescriptor.FinishWrite` | kernel/terminal.cpp:1060-1066 | the end of the stream is queued |

## Left out

- Processes.Processes.Run: every event is atomic, while the source runs LoadApp, SetupPageMaps and the frame allocator with interrupts enabled and without a lock; a system call that stores to a page which is still shared is no event of a run, because it breaks the isolation: `Processes.Processes.KernelStore`, `Paging.StoreReachesImageIff`.
- Processes.Processes.RunOn: an app that could not be loaded, or not be given its stack, keeps the frames it had got, as in the source; and a system call's access to an address that nothing serves, at which the kernel halts, is no event.
- Processes.Processes.ExecuteFile: for an app that is cached; the end of its image, which AppLoadInfo keeps, and the files of the terminal are parameters, and an app's behaviour is any sequence of its own events. The argument vector is not built.
- Processes.Processes.CopyLoadSegments: the ELF file's headers are not parsed; a segment comes as its address, its bytes in the file and its size in memory.
- Processes.Processes.HandlePageFault: faults on kernel-half addresses are not modelled; what a file contains does not change while it is open, and addresses do not wrap around at 2^64.
- Processes.Processes.PreparePageCache: the bytes of a file are part of the task; that a descriptor's Load gives them is `MappedFiles.LoadPage`.
- Processes.Processes.SysMapFile: needs room for the file below the lowest window; there the source's subtraction wraps around.
- Paging.AddressSpaces.CleanPageMap: only for start addresses whose lower parts are zero, the one use there is (kernel/terminal.cpp:741).
- Paging.AddressSpaces.SetupPageMap: over pages that are mapped with the other right it does what `Paging.GrantingIsSafeIffOwn` says, which its contract leaves out; it takes frames from a set of used frames by the first-fit rule; that the bitmap class follows this rule is proved beside it, but the two are not one object.
- FrameAllocator.BitmapMemoryManager.LoadMemoryMap: the firmware's regions are in ascending order and end below 128 GiB; the source relies on the order, and writes behind its bitmap for regions above.
- Scheduler.RoundRobin: only switches in a row; with other events in between, the bound of `Fairness.BoundedWait` holds.
- Scheduler.TurnComes: as for `Scheduler.RoundRobin`.
- Fairness.BoundedWait: no running task moves itself to the level of the one that waits, where it would be put in front.
- FileDescriptors.WriteAll: writes that cross the end of a cluster are left to the contract of Write.
- FileDescriptors.FileDescriptor.Write: needs enough free clusters, because the source's scan runs past the end of a full table; directory entries are objects of their own rather than bytes of a directory's cluster, and the bytes read behind a too short buffer are a longer buffer here.
- FileDescriptors.FileDescriptor.Load: only up to the file's size; behind it the source subtracts below zero.
- Directories.DirectoryVolume.CreateFile: needs a free cluster, an ASCII path whose parent, if it is found, is a directory with a cluster of its own, and no removed directory entries that still carry the directory attribute.
- Directories.DirectoryVolume.FindFile: path elements may be of any length; the source's buffer of 13 bytes is not modelled.
- Directories.CreateThenFind: names without a dot that end in one, long names and doubled slashes are not covered.
- Rings.ArrivesInOrder: pushed TRBs are not Link TRBs themselves, and a push begins only while at most buf_size - 3 are outstanding, beyond which `Rings.OneTooMany` applies; doorbells and the memory ordering of the bus are not modelled.
- Ports.EventKeeps: registers, device contexts and slots are inputs of the events; port numbers begin at 1; disconnecting a port has no handler in the source and none here.
- Layers.ActiveLayer.Activate: the title bars that windows redraw and the messages to their tasks are not part of the model; the mouse layer is shown and is not the layer that is activated.
- Layers.LayerManager.DrawLayer: the id is that of a layer that is shown; otherwise the source copies an area that it has not initialized.
- Layers.LayerManager.Move: MoveRelative differs from it by one addition and is not repeated.
- FrameBuffers.FrameBuffer.Copy: a buffer is a sequence of rows of colours, so the padding of scan lines and the unused byte of a pixel are not modelled; coordinates are unbounded integers.
- FrameBuffers.FrameBuffer.Move: moves inside the same rows must not overlap, since each row is a memcpy.
- Timers.ExactlyOnce: the tick counter does not wrap around at 2^64.
- TaskProtocol.NoLostWakeup: sends from interrupt handlers that are not masked are single steps; contexts, stacks and the register switch are not modelled, and tasks are values in a map.
- Pipes.Conservation: the descriptor is the only receiver of its task's mailbox.
- Memory is accessed in words of 8 bytes; other bits of page table entries, huge pages, accessed and dirty bits, the TLB and CR3 are not modelled.
- Accesses of devices, interrupts, PCI, ACPI, fonts, the console, the shell's command line, window decoration and input, all of `apps/` and the loader.
