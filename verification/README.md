# epoll-shim: verified models

epoll-shim implements epoll, timerfd, signalfd and eventfd on top of kqueue. This project models the parts of it whose correctness is not visible in one function and proves what they promise: the rank-balanced tree that holds the registrations of an epoll instance, the reader/writer lock of the descriptor table, the wait and control operations of an epoll instance, the flush of threads out of `ppoll`, timers, the descriptor table with its reference counts and the close of a descriptor, and the wakeup protocols of signalfd and of the realtime step detector.

`dafny verify dfyconfig.toml` checks everything.

## How it is organised

| file | what it models |
|---|---|
| `WavlTree.dfy` | the rank-balanced tree as a value, and its repairs as functions of a subtree and the path to the root |
| `RbMemory.dfy` | which memory cells (left, right, parent, two bits) a tree asks for, and what relinking does to them |
| `RbTree.dfy` | the `RB_*` macros as methods that walk and relink cells in place |
| `RwLock.dfy` | the reader/writer lock, one atomic operation per step |
| `TimespecUtil.dfy`, `TimerFd.dfy` | overflow-checked times, the timer object, runs of reads and gettimes |
| `EpollNode.dfy` | one registration: the filters it needs, how it digests a kevent, how it is registered |
| `EpollPass.dfy` | what becomes of a registration through a batch of kevents, completion and the report |
| `EpollWait.dfy` | the whole epoll instance: a pass as a function of the nodes and of what happens, the passes of a wait, `epoll_wait` and `epoll_ctl` as methods |
| `Repoll.dfy` | flushing threads out of `ppoll` |
| `OpenFiles.dfy`, `RefCount.dfy`, `CloseFd.dfy` | the descriptor table, reference counts, the three passes of close |
| `SignalFd.dfy`, `StepDetector.dfy` | the two background protocols |
| `Counting.dfy`, `Options.dfy`, `Powers.dfy` | shared helpers |

Objects that the source updates in place (the tree head, a timer, an epoll instance, the descriptor table, a `struct timespec` behind a pointer) are classes, and their methods are proved against functions and predicates on values. Protocols between threads are state machines: a state, a function `Step` that is `None` where a thread cannot take an action, and lemmas over all runs for any number of threads. Each `Step` action is one atomic operation, one system call, or one critical section of a mutex that is never held across a wait.

## Modelling decisions

- A tree node is named by the descriptor it holds; the memory is a map from names to cells. The two rank-difference bits are fields of their own, where the source packs them into the parent pointer.
- The rank of null is 0. The comment at line 57 of `tree.h` says -1, but with the rank of a leaf being 1 (line 63) and differences of 1 or 2, null has rank 0.
- `RB_AUGMENT` is empty in this repository, so the loops that call it are not modelled. A removed node is dropped from the memory by the removal, as its owner frees it right after.
- The reader/writer lock is proved for fewer than 2^30 readers at a time; `RwLock.LateReader` shows that the bound is exact.
- The epoll part is the build with `EVFILT_USER` and without `EVFILT_EXCEPT`, and with an `EPOLLRDHUP` other than 0x2000. The kernel may answer anything that fits: every registered or triggered filter at most once per call, no end of file from a kqueue, and no `ENODEV` for a device it has accepted before. The claims that name a steady kernel (that nothing collected is lost) also assume that an end of file of a socket is not taken back; those that name a benign one (that armed sockets stay on watch) also that the filters of a socket are registered when asked for. That a new hangup is reported needs neither.
- Timers are those on `CLOCK_MONOTONIC`. The kernel timer fires no earlier than asked. Reads of the clock and registrations with the kernel succeed.
- `RefCount` uses the reader/writer lock only through the exclusion that `RwLock` proves. `CloseFd` has the lock itself, in larger steps than `RwLock`: a reader is let in or blocked by the writer that has announced itself, tokens are posted one by one or all the rest at once, and a blocked reader may take a token meant for another, also one that an earlier writer posted and that the next writer waits for. Descriptions and epoll instances are numbered in the order they are created.
- `CloseFd` counts as waiting what a thread cannot do before another lets go of the lock, of an epoll mutex, or leaves `ppoll`. A thread in `ppoll` is taken to leave it, as the flush wakes it up (`Repoll.FlushDue`).
- Steps are sequentially consistent.

## Where the code does less than one might expect

- `TimerFd.OneShotRead`: a one-shot timer whose expiry a `timerfd_gettime` saw first is never reported to a `read`, because disarming also forgets the timer type. The lemma says exactly when the expiry reaches a read, `TimerFd.OneShotLost` is such a run from a fresh timer.
- `TimerFd.AbortsOnOverflow`: the assertion at line 689 of `src/timerfd_ctx.c` fails when the advance of a periodic timer overflows, and only then. `TimerFd.LongIntervalAborts` and `TimerFd.AbortReached`: an interval of 2^63 ns or more (about 292 years) is accepted and makes the first read that the kernel timer wakes up abort, for instance settime with 1 ns and 10^10 s and a read a microsecond later.
- `TimerFd.TicksNeverEarly`: the rounding for NetBSD never wraps below its cutoff of 49 days, but the kernel's own 32-bit conversion does; no duration ends early exactly up to 1014 ticks a second. From 1015 on a sleep of 4233599.999999999 s does (`TimerFd.Early`, `TimerFd.EarlyAt1015`).
- `EpollNode.HungUpFilters`: a level-triggered socket that has hung up and asked for `EPOLLPRI` and `EPOLLOUT`, but for neither `EPOLLIN` nor `EPOLLRDHUP`, is left with a single `EV_CLEAR` filter. The lemma says exactly when a level-triggered filter is left, `EpollNode.HungUpReached` how two kevents lead there.
- `EpollNode.UrgentFilters`: a level-triggered socket that asked for `EPOLLPRI` and `EPOLLRDHUP` but not for `EPOLLIN` is woken for urgent data once only, as long as its peer has not closed; the lemma says exactly when, `EpollNode.UrgentReached` gives a registration and one kevent that lead there.
- `StepDetector.DetectorStep`: a detector thread that could not be started is not tried again before the counter has been at zero.
- `EpollWait.FlagLeftOver`: a node of type kqueue whose description has nothing to report after all keeps its `got_evfilt_read` flag beyond the call. The lemma says exactly when, `EpollWait.FlagReached` gives a registration and one kevent that lead there.
- `EpollWait.EntriesNotEmpty`: with a steady kernel, an entry without any event is handed out exactly for a kqueue whose description a completion event finds bare, after the first event had found something; `EpollWait.EmptyEntryReached` gives a registration and two kevents that lead there.

## Model

| member | source | states |
|---|---|---|
| `WavlTree.PlugKeeps` | external/tree-macros/include/sys/tree.h:65-71 | search order and membership of a whole tree follow from those of a subtree and of the path above it |
| `WavlTree.KeysAscend` | external/tree-macros/include/sys/tree.h:803-806 | the in-order sequence of a search tree ascends strictly and holds exactly the members |
| `WavlTree.Descended` | external/tree-macros/include/sys/tree.h:671-688 | the search ends at the node with the key if it is there, else at the null in its place; order and ranks hold on both sides of the cut |
| `WavlTree.LiftedLeft` | external/tree-macros/include/sys/tree.h:463-513 | the single or double rotation after an insertion on the left restores the rank rule without changing the rank of the subtree |
| `WavlTree.LiftedRight` | external/tree-macros/include/sys/tree.h:463-513 | the same on the right |
| `WavlTree.InsertStepRanks` | external/tree-macros/include/sys/tree.h:463-513 | one turn of the repair either ends with the rank rule restored everywhere or hands the same defect one level up |
| `WavlTree.InsertStepKeeps` | external/tree-macros/include/sys/tree.h:463-513 | no turn of the repair adds, loses or misplaces a key |
| `WavlTree.InsertColor` | external/tree-macros/include/sys/tree.h:463-513 | the whole repair after an insertion yields a tree that obeys the rank rule |
| `WavlTree.InsertColorKeeps` | external/tree-macros/include/sys/tree.h:463-513 | ... with the same keys in search order |
| `WavlTree.DroppedLeft` | external/tree-macros/include/sys/tree.h:515-593 | the rotations after a removal on the left restore the rank rule and the rank of the subtree |
| `WavlTree.DroppedRight` | external/tree-macros/include/sys/tree.h:515-593 | the same on the right |
| `WavlTree.RemoveStepRanks` | external/tree-macros/include/sys/tree.h:515-593 | one turn of the removal repair, through flips, demotions and rotations, ends with the rank rule restored or hands the same defect one level up |
| `WavlTree.RemoveStepKeeps` | external/tree-macros/include/sys/tree.h:515-593 | no turn of it adds, loses or misplaces a key |
| `WavlTree.RemoveColor` | external/tree-macros/include/sys/tree.h:515-593 | the whole removal repair yields a tree that obeys the rank rule |
| `WavlTree.RemoveColorKeeps` | external/tree-macros/include/sys/tree.h:515-593 | ... with the same keys in search order |
| `WavlTree.Inserted` | external/tree-macros/include/sys/tree.h:637-669 | inserting an equal key changes nothing; any other key is added and only that, and the tree stays valid |
| `WavlTree.SuccessorHole` | external/tree-macros/include/sys/tree.h:607-624 | splicing the successor into the place of a node with two children loses exactly that node's key and leaves one edge too low |
| `WavlTree.Removed` | external/tree-macros/include/sys/tree.h:595-635 | removal takes exactly the given key out and leaves a valid tree |
| `WavlTree.HeightBound` | external/tree-macros/include/sys/tree.h:53-70 | 2^comparisons <= 2^height <= (n + 1)^2 for every tree that obeys the rank rule |
| `WavlTree.RunMembers` | external/tree-macros/include/sys/tree.h:595-669 | after any sequence of insertions and removals the tree holds exactly the set those operations stand for |
| `WavlTree.RunHeight` | external/tree-macros/include/sys/tree.h:53-70 | in every tree so reached with n registrations a search makes at most 2 lg (n + 1) comparisons |
| `WavlTree.MinRemoved` | src/epollfd_ctx.c:693-699 | removing the minimum takes the first key off the in-order sequence |
| `WavlTree.MinNext` | external/tree-macros/include/sys/tree.h:813-816 | the successor fetched before the minimum is removed is the minimum of what is left |
| `RbMemory.RotateLeftRelinks` | external/tree-macros/include/sys/tree.h:382-392 | the pointer writes of a left rotation turn memory holding a tree, link by link, into memory holding the rotated tree and nothing else |
| `RbMemory.RotateRightRelinks` | external/tree-macros/include/sys/tree.h:394-404 | a right rotation undoes exactly that |
| `RbMemory.UnlinkHolds` | external/tree-macros/include/sys/tree.h:600-628 | taking a node with at most one child out of memory leaves exactly the cells of the tree with that child in its place |
| `RbMemory.SpliceHolds` | external/tree-macros/include/sys/tree.h:607-628 | the writes of removal for a node with two children leave exactly the cells of the tree with the successor in its place, parents included |
| `RbMemory.SpliceIsApart` | external/tree-macros/include/sys/tree.h:607-628 | the cells those writes touch exist and do not alias |
| `RbTree.RbHead.SwapChild` | external/tree-macros/include/sys/tree.h:373-380 | whoever pointed down at one node points at the other, root included |
| `RbTree.RbHead.RotateLeft` | external/tree-macros/include/sys/tree.h:382-392 | in-place rotation: root pointer and memory hold the rotated tree |
| `RbTree.RbHead.RotateRight` | external/tree-macros/include/sys/tree.h:394-404 | the mirror image |
| `RbTree.RbHead.InsertColor` | external/tree-macros/include/sys/tree.h:463-513 | the in-place loop leaves memory holding the repaired tree; it ends because it climbs |
| `RbTree.RbHead.RemoveColor` | external/tree-macros/include/sys/tree.h:515-593 | the same for the removal repair, a parent that became a leaf first |
| `RbTree.RbHead.Find` | external/tree-macros/include/sys/tree.h:671-688 | finds the key exactly if it is a member, for any key, negative ones included, with the number of comparisons that `HeightBound` bounds |
| `RbTree.RbHead.MinMax` | external/tree-macros/include/sys/tree.h:758-773 | the least or greatest member, or null for the empty tree |
| `RbTree.RbHead.Next` | external/tree-macros/include/sys/tree.h:712-733 | the least member above the given one, or null if there is none |
| `RbTree.RbHead.Insert` | external/tree-macros/include/sys/tree.h:637-669 | returns the equal node and writes nothing, or adds exactly the new one; links, order and ranks stay valid |
| `RbTree.RbHead.TakePlace` | external/tree-macros/include/sys/tree.h:621-627 | the in-place writes by which the successor takes over links, bits and place of the removed node |
| `RbTree.RbHead.RemoveOne` | external/tree-macros/include/sys/tree.h:600-628 | unlinks a node with at most one child and says where the repair starts |
| `RbTree.RbHead.RemoveTwo` | external/tree-macros/include/sys/tree.h:607-628 | splices the successor in and says where the repair starts |
| `RbTree.RbHead.Remove` | external/tree-macros/include/sys/tree.h:595-635 | removes exactly the given node; links, order and ranks stay valid |
| `RbTree.RbHead.Teardown` | src/epollfd_ctx.c:693-699 | visits every node once, in ascending order, and leaves an empty tree and no cell |
| `RbTree.FdCmp` | src/epollfd_ctx.c:647-651 | a negative or positive result exactly for less and greater |
| `RwLock.StepInv` | src/rwlock.c:68-107 | every step of every thread keeps num_pending, readers_departing and both semaphores in balance with the readers inside, blocked and leaving |
| `RwLock.Exclusion` | src/rwlock.c:68-107 | in every run a writer inside is alone: no reader, no downgrading writer, no other writer |
| `RwLock.ReaderStays` | src/rwlock.c:68-119 | a thread inside as a reader stays inside until its own unlock_read, and no writer gets in before |
| `RwLock.Downgrade` | src/rwlock.c:115-119 | from the start of a downgrade on, the former writer is such a reader |
| `RwLock.LateReader` | src/rwlock.c:10-74 | with a writer inside, a new reader is let in exactly if it is the 2^30th |
| `RwLock.NoOverflow` | src/rwlock.c:90-107 | both counters stay within 32 bits |
| `RwLock.NotStuck` | src/rwlock.c:68-107 | whenever some thread is in a call or inside, some such thread can take a step |
| `RwLock.Enabled` | src/rwlock.c:68-119 | a thread waits for a token, for the mutex or for the readers, and for nothing else |
| `RwLock.CallOrder` | src/rwlock.c:68-119 | where each operation leads; only a downgrade keeps its thread inside |
| `RwLock.WriterDue` | src/rwlock.c:76-95 | a waiting writer can go on, or a reader can bring that closer; the first exactly if the measure is 0 |
| `RwLock.WaitRun` | src/rwlock.c:68-95 | however many threads arrive, a waiting writer waits for no more reader steps than the measure when it began to wait |
| `RwLock.NoLostWakeup` | src/rwlock.c:97-107 | with no writer past the mutex every blocked reader has its token; during release exactly the rest is still owed |
| `TimespecUtil.AddSafe` | src/timespec_util.c:20-40 | the exact sum, or false exactly if 64-bit seconds cannot hold it, also when the result is one of the operands |
| `TimespecUtil.SubSafe` | src/timespec_util.c:42-62 | the exact difference, which always fits for valid operands, also when the result is one of the operands |
| `TimespecUtil.ValidNanos` | src/timespec_util.c:5-11 | valid times are the nanosecond counts up to the maximum, one for one |
| `TimespecUtil.BeforeNanos` | src/timespec_util.h:14-17 | the field-wise comparison is the order of instants |
| `TimerFd.DueExact` | src/timerfd_ctx.c:253-257 | the number of expirations counts exactly the instants not after now |
| `TimerFd.DueSplit` | src/timerfd_ctx.c:253-275 | counting to one time and on to a later one is counting to the later one |
| `TimerFd.UpdatedExact` | src/timerfd_ctx.c:224-292 | without overflow an advance adds exactly the k >= 0 with it_value + k * interval <= now and leaves now < it_value <= now + interval |
| `TimerFd.UpdateSplits` | src/timerfd_ctx.c:224-292 | advancing to t1 and then to t2 is advancing to t2 |
| `TimerFd.UpdatedValid` | src/timerfd_ctx.c:285-291 | an advance leaves the timer disarmed or its expiry in the future |
| `TimerFd.DisarmsOnOverflow` | src/timerfd_ctx.c:235-270 | a periodic timer is disarmed by an advance exactly in case of overflow, and then no count is added |
| `TimerFd.LeastUnits` | src/timerfd_ctx.c:355-389 | microseconds and milliseconds are the least counts not below the requested duration |
| `TimerFd.RegisteredOnTime` | src/timerfd_ctx.c:331-374 | the kernel timer is due no earlier than the expiry and less than a microsecond after it (or after now); none is registered exactly from ten years on |
| `TimerFd.SetTicks` | src/timerfd_ctx.c:529-558 | setting a periodic timer starts an account of its instants at now + value, or at value |
| `TimerFd.GettimeTicks` | src/timerfd_ctx.c:457-471 | unless the advance overflows or wraps the count, gettime reports the time to the first instant after now and changes nothing that reads return |
| `TimerFd.ReadTicks` | src/timerfd_ctx.c:607-720 | likewise a read returns exactly the instants due and not returned before, EAGAIN exactly if there are none, and its assertions hold |
| `TimerFd.PeriodicRun` | src/timerfd_ctx.c:457-720 | over any run of reads and gettimes, however long, in which no single advance overflows or wraps the count, the values returned plus nr_expirations are the instants due at the last update, and no assertion fails |
| `TimerFd.SetAndRun` | src/timerfd_ctx.c:473-720 | the same from the setting of the timer on |
| `TimerFd.SetToZero` | src/timerfd_ctx.c:506-514 | a zero it_value disarms: no kernel timer, no time left and nothing to read, at any later time |
| `TimerFd.Refuses` | src/timerfd_ctx.c:482-545 | exactly which settings are refused; those change nothing but the time of the old one |
| `TimerFd.SetsFromNow` | src/timerfd_ctx.c:519-545 | the time of a relative setting starts when it is made, unless an armed relative one is handed out |
| `TimerFd.SwapsBack` | src/timerfd_ctx.c:490-545 | putting a relative setting back the moment it is handed out changes no expiry |
| `TimerFd.OneShotBefore` | src/timerfd_ctx.c:457-614 | before its expiry a one-shot timer tells the time left and a read finds nothing |
| `TimerFd.OneShotAfter` | src/timerfd_ctx.c:607-720 | the first read from then on returns 1 and leaves no kernel timer, none after it returns anything |
| `TimerFd.InRangeAdvances` | src/timerfd_ctx.c:235-270 | in the first 292 years or so after the first expiry no advance does that |
| `TimerFd.AbortsOnOverflow` | src/timerfd_ctx.c:683-689 | the assertions of a read woken by the kernel timer fail exactly on overflow |
| `TimerFd.LongIntervalAborts` | src/timerfd_ctx.c:683-689 | any accepted setting with an interval of 2^63 ns or more makes the first read that the kernel timer wakes up abort |
| `TimerFd.AbortReached` | src/timerfd_ctx.c:473-720 | such a run from a fresh timer |
| `TimerFd.OneShotRead` | src/timerfd_ctx.c:607-614 | the expiry of a one-shot timer reaches a read exactly if no gettime came at or after it |
| `TimerFd.OneShotLost` | src/timerfd_ctx.c:457-614 | a run from a fresh timer in which it does not: a setting of 1 ns, a gettime a microsecond later, any read after that |
| `TimerFd.RoundedUp` | src/timerfd_ctx.c:302-328 | below 49 days the tick rounding does not wrap in 32 bits and adds between 1 and 3000 ms |
| `TimerFd.TicksNeverEarly` | src/timerfd_ctx.c:299-328 | with the kernel's own 32-bit conversion (test/timerfd-mock-test.c:69-74) no duration below 49 days ends early exactly up to 1014 ticks a second |
| `TimerFd.Early` | src/timerfd_ctx.c:299-328 | from 1015 ticks a second on, one nanosecond below the cutoff ends early |
| `TimerFd.TsToNanos` | src/timerfd_ctx.c:42-54 | the nanoseconds of a time, or EOVERFLOW exactly if they exceed 64 bits |
| `TimerFd.TimerFD.UpdateToCurrentTime` | src/timerfd_ctx.c:224-292 | the method computes the advance described above, for periodic and one-shot timers |
| `TimerFd.TimerFD.PeriodicUpdate` | src/timerfd_ctx.c:232-276 | its branch for interval timers, with every overflow check of the source |
| `TimerFd.TimerFD.RegisterEvent` | src/timerfd_ctx.c:331-435 | replaces the kernel timer by one as in `RegisteredOnTime` |
| `TimerFd.TimerFD.Gettime` | src/timerfd_ctx.c:457-471 | reports the time left after the advance |
| `TimerFd.TimerFD.Settime` | src/timerfd_ctx.c:473-563 | stores the new setting or refuses it, and hands out the old one, advanced first, where it is asked for |
| `TimerFd.TimerFD.Read` | src/timerfd_ctx.c:607-720 | the read step of the run lemmas, state and answer |
| `EpollNode.SomeFilter` | src/epollfd_ctx.c:62-213 | at least one filter is needed, edge-triggered ones with EV_CLEAR, and only filters the kind of descriptor has |
| `EpollNode.NeedsExactly` | src/epollfd_ctx.c:62-213 | exactly which filters a registration has and which of them with EV_CLEAR, in terms of what was asked for and which ends have been seen |
| `EpollNode.UrgentFilters` | src/epollfd_ctx.c:115-136 | exactly when urgent data wakes a level-triggered socket again and again |
| `EpollNode.UrgentReached` | src/epollfd_ctx.c:115-136 | a registration and one kevent after which it does not |
| `EpollNode.LevelFilters` | src/epollfd_ctx.c:62-213 | level-triggered registrations keep being woken for what they asked for; filters that only watch for the end wake once |
| `EpollNode.ProcessHooked` | src/epollfd_ctx.c:1398-1423 | digesting an event leaves a node with exactly the filters it then needs, unless it is edge-triggered and has hung up |
| `EpollNode.HungUpStays` | src/epollfd_ctx.c:1403-1406 | such a node keeps the filters it has |
| `EpollNode.ProcessFails` | src/epollfd_ctx.c:1418-1422 | if registering again fails the node has no filter left |
| `EpollNode.HungUpFilters` | src/epollfd_ctx.c:144-157 | exactly when a hung-up level-triggered socket keeps a level-triggered filter |
| `EpollNode.HungUpReached` | src/epollfd_ctx.c:144-157 | a run of two kevents from a successful registration to one that keeps none |
| `EpollNode.FeedFit` | src/epollfd_ctx.c:285-363 | the assertions of feed_event, also on what poll returns, hold for every event the kernel can deliver, and the node stays consistent with its filters |
| `EpollNode.SocketReports` | src/epollfd_ctx.c:534-571 | which events a socket reports, from the event and the ends of file seen so far |
| `EpollNode.FifoReports` | src/epollfd_ctx.c:489-531 | which events a FIFO reports at and before its end |
| `EpollNode.DeferredAdds` | src/epollfd_ctx.c:501-522 | the write end of a FIFO that is also read only adds EPOLLHUP at its end, to what the read end found |
| `EpollNode.BrokenFifoReports` | src/epollfd_ctx.c:318-359 | a FIFO without readers listens again once that works, and reports EPOLLERR and EPOLLOUT until then, again and again if level-triggered |
| `EpollNode.OtherReports` | src/epollfd_ctx.c:553-558 | a device reports its event, and EPOLLHUP at its end |
| `EpollNode.KqueueReports` | src/epollfd_ctx.c:574-578 | a kqueue reports what its description has |
| `EpollNode.PollReports` | src/epollfd_ctx.c:291-316 | a poll-only descriptor reports what poll returns, EPOLLERR if it fails, nothing if it is not valid any more |
| `EpollNode.FeedSeen` | src/epollfd_ctx.c:446-487 | which ends of file and urgent data are remembered |
| `EpollNode.FeedGot` | src/epollfd_ctx.c:560-572 | an event counts as received exactly if there is something to report then |
| `EpollNode.FeedModest` | src/epollfd_ctx.c:556-585 | nothing is reported but what was asked for, EPOLLHUP and EPOLLERR, with EPOLLRDHUP as the caller spelled it |
| `EpollNode.FeedAdds` | src/epollfd_ctx.c:556-558 | a later event takes back nothing of what earlier ones collected, except exactly a 0x2000 whose end of file it takes back |
| `EpollNode.RegisteredFit` | src/epollfd_ctx.c:887-1060 | re-registration keeps node and kqueue filters consistent and what was collected |
| `EpollNode.RegisteredWhat` | src/epollfd_ctx.c:887-1060 | what a successful registration leaves: flags, poll-only or not, ends of file seen, and exactly the needed filters, less the write filter of a FIFO without readers |
| `EpollNode.RegisteredExactly` | src/epollfd_ctx.c:887-1060 | exactly when a registration succeeds, and when it ends up on the poll-only list |
| `EpollNode.PollRegisteredExactly` | src/epollfd_ctx.c:987-1024 | the same for a node on the poll-only list |
| `EpollNode.TellsCollected` | src/epollfd_ctx.c:556-558 | whatever was collected before, what an event says on its own is collected |
| `EpollNode.RegisteredNew` | src/epollfd_ctx.c:1105-1209 | a registration or modification that succeeds fits its descriptor, and a socket is armed and on watch |
| `EpollNode.UnseenHalf` | src/epollfd_ctx.c:159-176 | an armed socket that has not hung up listens on a half whose end it has not seen |
| `EpollNode.ProcessWatched` | src/epollfd_ctx.c:1398-1423 | digesting an event and re-registering keeps that; only a failing registration disarms |
| `EpollNode.CompleteWatched` | src/epollfd_ctx.c:587-645 | completion keeps it too, although it does not re-register |
| `EpollNode.HupReported` | src/epollfd_ctx.c:545-558 | the event that completes a hangup reports EPOLLHUP, and later events keep it |
| `EpollPass.AtMostTwo` | src/epollfd_ctx.c:1351-1357 | a batch holds at most two events of one registration |
| `EpollPass.AfterMidway` | src/epollfd_ctx.c:1384-1423 | whatever the events before did, each event of a batch finds its node as feed_event asserts; a node that is not listed is at rest |
| `EpollPass.NewsOnce` | src/epollfd_ctx.c:1425-1427 | a registration has its first news at most once, so it is listed once |
| `EpollPass.NodeDelivered` | src/epollfd_ctx.c:1382-1451 | what a kevent says to its node is reported in full, through all later events of the batch and of completion |
| `EpollPass.NodeHangup` | src/epollfd_ctx.c:545-558 | for any kernel: the node of a socket that has newly hung up is listed and reports EPOLLHUP |
| `EpollPass.NodeWatched` | src/epollfd_ctx.c:1382-1441 | an armed socket stays armed, and one that has not hung up stays registered for a half whose end it has not seen |
| `EpollPass.AfterHooked` | src/epollfd_ctx.c:1384-1423 | through a batch it has exactly the filters it needs, last added with the flags it needs |
| `EpollPass.NodeResidue` | src/epollfd_ctx.c:561-578 | exactly when a kqueue node keeps got_evfilt_read after its batch |
| `EpollPass.KqueueDelivered` | src/epollfd_ctx.c:574-578 | a kqueue reports what its event found, exactly unless the description lacks some of it when a completion event overtakes it, and then what that one finds |
| `EpollWait.ListedOnce` | src/epollfd_ctx.c:1384-1428 | a registration enters the list of entries once |
| `EpollWait.PassNode` | src/epollfd_ctx.c:1372-1461 | a pass of the instance is, for each registration, the pass of its node |
| `EpollWait.PassReady` | src/epollfd_ctx.c:1446-1461 | after a pass no node has an event left to report |
| `EpollWait.PassEntries` | src/epollfd_ctx.c:1446-1461 | each entry is for a registration of its own and says no more than that asked for; there are no more entries than kevents or registrations |
| `EpollWait.EventsDelivered` | src/epollfd_ctx.c:1382-1451 | every kevent of the batch that says something has its node listed and all it says in the entry (`EpollNode.SocketReports` and `FifoReports` say which bits; the write end of a FIFO that is also read says nothing at its end) |
| `EpollWait.DataReported` | src/epollfd_ctx.c:285-531 | in particular data to read and room to write are reported to who asked for it, what poll finds, and EPOLLERR for a FIFO that still has no readers |
| `EpollWait.CompletionHasAll` | src/epollfd_ctx.c:587-622 | whatever meanwhile happens to a registered filter no event came from, of a listed node that is edge-triggered or after a full batch, is among the events of completion |
| `EpollWait.CompletionReported` | src/epollfd_ctx.c:1430-1441 | so EPOLLIN and EPOLLOUT that only completion finds are in the entry |
| `EpollWait.CompletionDelivered` | src/epollfd_ctx.c:1430-1441 | the same for the events that completion finds |
| `EpollWait.KqueueEventsDelivered` | src/epollfd_ctx.c:574-578 | the same for kqueues: all the first event said is in the entry exactly if no completion event finds a description that lacks some of it; what a completion event says always is |
| `EpollWait.EntriesNotEmpty` | src/epollfd_ctx.c:1446-1451 | no entry is empty, except exactly after such a replacement by nothing |
| `EpollWait.EmptyEntryReached` | src/epollfd_ctx.c:561-578 | a registration, a kevent and a completion event after which there is an empty entry |
| `EpollWait.SkippedNothing` | src/epollfd_ctx.c:1463-1465 | a pass that jumps back has dropped only kevents that say nothing |
| `EpollWait.OneShotUnhooked` | src/epollfd_ctx.c:1458-1460 | a registration asked for with EPOLLONESHOT that was reported has no filter left in the kqueue |
| `EpollWait.OneShotOnce` | src/epollfd_ctx.c:1458-1460 | until it is changed it is not reported again, in any run of waits, of any number of passes, and of calls that change other registrations |
| `EpollWait.HangupsReported` | src/epollfd_ctx.c:545-558 | for any kernel: a socket that has newly hung up is in the entries with EPOLLHUP |
| `EpollWait.EndsReported` | src/epollfd_ctx.c:446-463 | in terms of kevents: once EV_EOF has come for both halves, now or before, the entry has EPOLLHUP |
| `EpollWait.StaysOnWatch` | src/epollfd_ctx.c:1398-1441 | with a benign kernel every armed socket stays on watch over a pass, and armed unless it was to be reported once and has been |
| `EpollWait.LevelStays` | src/epollfd_ctx.c:1398-1434 | after a pass whose batch was not full a level-triggered registration has exactly the filters it needs, with the flags it needs; unless it is a hung-up socket it is going to be woken again for what it asked for |
| `EpollWait.FlagLeftOver` | src/epollfd_ctx.c:1453-1456 | exactly when got_evfilt_read outlives a pass |
| `EpollWait.FlagReached` | src/epollfd_ctx.c:561-578 | a registration and one kevent after which it does |
| `EpollWait.LastPassStarts` | src/epollfd_ctx.c:1372-1469 | the last pass of a wait starts from nodes at rest with the same registrations, and no socket has newly hung up before it |
| `EpollWait.WaitReportsHangups` | src/epollfd_ctx.c:1372-1469 | over all passes of a wait no hangup is lost: a new one is in the entries it ends with |
| `EpollWait.WaitStaysOnWatch` | src/epollfd_ctx.c:1372-1469 | the same over all passes of a wait |
| `EpollWait.WaitLevelStays` | src/epollfd_ctx.c:1372-1469 | over all passes of a wait a level-triggered registration keeps the filters it needs |
| `EpollWait.BatchFits` | src/epollfd_ctx.c:1351-1365 | when the caller's array covers all registrations, the kernel's batch is never cut off |
| `EpollWait.BatchHasAll` | src/epollfd_ctx.c:1351-1380 | ... so it has every registered or triggered filter that something happens to |
| `EpollWait.FiredDelivered` | src/epollfd_ctx.c:1377-1380 | what the modelled kernel returns is what the claims about a batch ask for |
| `EpollWait.SweptAt` | src/epollfd_ctx.c:1336-1349 | what poll says of a node decides what becomes of it: dropped, triggered or unchanged, and other nodes are untouched |
| `EpollWait.EpollFD.Collect` | src/epollfd_ctx.c:1382-1428 | the first loop feeds every kevent to its node in turn and writes one pointer per listed registration, in order, within the caller's array |
| `EpollWait.EpollFD.AskForCompletion` | src/epollfd_ctx.c:1430-1441 | asks exactly for the registered filters no event came from, of entries that are edge-triggered or in a full batch |
| `EpollWait.EpollFD.Complete` | src/epollfd_ctx.c:624-645 | every completion event is fed to its node in turn, with the assertions of feed_event |
| `EpollWait.EpollFD.Report` | src/epollfd_ctx.c:1446-1461 | entries get the collected events and the caller's data; nodes come to rest, one-shot ones leave the kqueue |
| `EpollWait.EpollFD.Sweep` | src/epollfd_ctx.c:1336-1349 | nodes whose descriptor is invalid are dropped, others with events are triggered, the rest is unchanged |
| `EpollWait.EpollFD.Round` | src/epollfd_ctx.c:1372-1461 | one pass in place: nodes, entries and the jump back are those of the pass the lemmas above are about |
| `EpollWait.EpollFD.Rounds` | src/epollfd_ctx.c:1372-1469 | the passes of a wait, to the first one that does not jump back |
| `EpollWait.EpollFD.Wait` | src/epollfd_ctx.c:1311-1469 | the whole call, with its error-free early exit and ENOMEM |
| `EpollWait.EpollFD.Ctl` | src/epollfd_ctx.c:1245-1309 | when each operation succeeds, removes or changes nothing; which flags, in the bits of the request, and which filters the registration has afterwards, that MOD keeps the ends of file seen, and that no other registration changes |
| `EpollWait.EpollFD.Enter` | src/epollfd_ctx.c:1194-1209 | a registration that fails removes its node |
| `Repoll.StepInv` | src/epollfd_ctx.c:809-834 | every step keeps the counter equal to the threads in flight, snapshots current, and a sleeping mutator signalled or waited for |
| `Repoll.Enabled` | src/epoll.c:210-259 | where each thread is, its operation is possible, but for the mutex |
| `Repoll.PollOrder` | src/epoll.c:210-259 | a thread polls what it filled in, is counted all the while, and a flush sleeps exactly while somebody is |
| `Repoll.PollsCurrentList` | src/epoll.c:210-259 | in every run, while the epoll mutex is free each thread in ppoll polls the list as the last change made it, descriptors and events |
| `Repoll.FlushReturns` | src/epollfd_ctx.c:809-834 | trigger_repoll returns only with no thread in ppoll or on its way there |
| `Repoll.FlushDue` | src/epollfd_ctx.c:816-827 | a flush is never stuck: its thread can go on, or a thread in flight can, the kqueue being readable |
| `Repoll.FlushRun` | src/epollfd_ctx.c:822-827 | a flush waits for at most two steps of each thread that was in flight when it began; nobody joins |
| `OpenFiles.SpaceNeeded` | src/epoll_shim_ctx.c:253-257 | the doubling loop ends before it wraps, with a power of two that covers the descriptor and is at most twice it |
| `OpenFiles.Table.Prepare` | src/epoll_shim_ctx.c:251-289 | growing keeps every slot, new slots are empty, and what was left in the slot is handed out |
| `OpenFiles.Table.Put` | src/epoll_shim_ctx.c:308-315 | one slot changes, no other |
| `OpenFiles.Table.ForEach` | src/epoll_shim_ctx.c:345-358 | visits every description once, in ascending order of descriptors |
| `RefCount.StepInv` | src/epoll_shim_ctx.c:62-112 | every step of every thread keeps counts, references, life of descriptions and lock consistent |
| `RefCount.HolderStep` | src/epoll_shim_ctx.c:237-428 | a reference never comes to point elsewhere; it changes hands between table, kqueue node and thread exactly where a slot is emptied or filled, a node removed, or a thread lets go |
| `RefCount.HolderNew` | src/epoll_shim_ctx.c:237-343 | a new reference is to what was found in the table, to a new description, or that of a registration |
| `RefCount.RunSlots` | src/epoll_shim_ctx.c:308-315 | in every run a descriptor has one slot |
| `RefCount.LockStep` | src/epoll_shim_ctx.c:327-419 | what a thread finds is what the slot holds, and after a downgrade it still keeps writers out |
| `RefCount.Conservation` | src/epoll_shim_ctx.c:237-428 | in every run each count is the table slots plus the kqueue nodes plus the threads (creators included) that hold the description, and it is zero exactly for dying and dead ones |
| `RefCount.NoUseAfterFree` | src/epoll_shim_ctx.c:62-112 | no step touches a description that is destroyed or about to be, be it between reading a slot and counting oneself, or in a visit under the read lock without counting (the passes of close, the step detector) |
| `RefCount.DestroyedOnce` | src/epoll_shim_ctx.c:98-112 | no description is destroyed twice, only by the thread that dropped its last reference, and one without references is destroyed or that thread can go on to do it |
| `CloseFd.StepInv` | src/epoll_shim_ctx.c:345-419 | every step keeps mutex owners, table and watched descriptors consistent with where each close is, and blocked readers due to a writer that still has tokens to post |
| `CloseFd.PassesMatch` | src/epoll_shim_ctx.c:400-415 | a close owns exactly the mutexes its first pass has reached, and then exactly those its third pass has not |
| `CloseFd.PassesTable` | src/epoll_shim_ctx.c:399-416 | from first lock to last unlock it works on one and the same table |
| `CloseFd.Forgotten` | src/epoll_shim_ctx.c:403-412 | when the descriptor itself is closed no epoll instance in the table watches it, and all are locked |
| `CloseFd.WatchedStep` | src/epollfd_ctx.c:1229-1243 | an epoll instance watches a descriptor from its registration until it is removed there or closed, whatever else is closed |
| `CloseFd.ClosedInstance` | src/epoll_shim_ctx.c:399-416 | from its lock to its unlock by a close, each epoll instance of the table keeps what it watched, less the descriptor closed |
| `CloseFd.CloseInOrder` | src/epoll_shim_ctx.c:391-416 | a close takes its passes one by one, for one and the same descriptor |
| `CloseFd.ReturnsClosed` | src/epoll_shim_ctx.c:391-416 | one that has returned has closed its descriptor on the way |
| `CloseFd.TableStep` | src/epoll_shim_ctx.c:291-315 | the table changes where something is put and nowhere else |
| `CloseFd.RefusedWaits` | src/rwlock.c:68-95 | a thread is refused its next step exactly if it waits for another one: for the writer that has the mutex of the lock, for readers inside or with a token, for the owner of an epoll mutex, for a thread in ppoll |
| `CloseFd.WaitsDown` | src/epoll_shim_ctx.c:360-416 | a thread that waits waits for one of lower height, which is in a call itself |
| `CloseFd.NoCircle` | src/epoll_shim_ctx.c:360-416 | no circle of waiting among closes, queued and announced writers, readers blocked, admitted and inside, epoll_ctl with its flush, epoll_wait and threads in ppoll |
| `CloseFd.SomeoneGoesOn` | src/epoll_shim_ctx.c:360-416 | whenever some thread is in a call, some such thread can take its next step |
| `CloseFd.NextCounts` | src/epoll_shim_ctx.c:391-416 | every next step of a thread brings it one nearer to the end of its call |
| `CloseFd.CallOrder` | src/rwlock.c:68-119 | where the steps of a call outside those passes lead |
| `SignalFd.StepInv` | src/signalfd_ctx.c:283-315 | every arrival, consumption and system call keeps a pending signal visible, or the call in progress about to look |
| `SignalFd.NoLostSignal` | src/signalfd_ctx.c:111-125 | in every run, after init, read and poll the kqueue is readable if a signal for it was pending at first or arrived, and has not been taken since |
| `SignalFd.PendingStep` | src/signalfd_ctx.c:148-330 | a read takes one signal and leaves the others pending |
| `SignalFd.ClearsExactly` | src/signalfd_ctx.c:284-337 | after a read or poll that nobody disturbed the kqueue is readable exactly if a signal is pending |
| `SignalFd.KeventStep` | src/kqueue_event.c:106-122 | each call of kevent takes away what it returns, and brings the draining nearer to its end |
| `StepDetector.NoUnderflow` | src/epoll_shim_ctx.c:549-553 | the assertion before the subtraction holds |
| `StepDetector.StepInv` | src/timerfd.c:201-221 | every settime, close and detector tick keeps counter, generation and threads in step |
| `StepDetector.Detection` | src/epoll_shim_ctx.c:446-569 | in every run at most one detector carries the current generation, none if the counter is zero, all others stop; between calls the counter is the number of absolute realtime timers |
| `StepDetector.DetectorStep` | src/epoll_shim_ctx.c:546-569 | exactly when a detector of the current generation runs: from the rise of the counter from zero, if its thread could be started, to the fall to zero |
| `StepDetector.AlwaysDetected` | src/epoll_shim_ctx.c:546-569 | in every run in which threads can be started one runs exactly while there is a timer that a clock step can affect |
| `StepDetector.TimerStep` | src/timerfd.c:201-221 | a timerfd counts by the clock it was created for and the mode of the last setting that took effect |

## Left out

- The build with `EVFILT_EXCEPT`, macOS, and the self-pipe fallback.
- System calls, symbol lookup, interposition and errno handling, and the compatibility wrappers that only set flags.
- eventfd: a counter with a trigger, whose readiness is one implication.
- Splay trees, `RB_REINSERT`, `RB_NFIND` and `RB_PREV`, which are not used here.
- Failing memory allocation, `kqueue1`, `fcntl` beyond its access mode, and failing clock or `kevent` calls where the table above does not name them.
- Timers on `CLOCK_REALTIME`: cancellation on clock steps, which the source itself calls racy, and the detector's effect on them.
- Copying of `siginfo`, and consuming signals on OpenBSD and macOS.
- The wrap of the detector generation after 2^64 increments.
- Memory orders weaker than sequential consistency.
- That the jumps back to `again` in `epollfd_ctx_wait` end: the passes are proved for as many as there is input for, whether the kernel keeps having events that say nothing is its own matter.
- The mutexes of timerfd, eventfd and signalfd descriptions and of the step detector, which are taken after the locks of `CloseFd` and never held while waiting for those, are not among its waits.
- The poll-only list as a linked list: `Repoll` has it as a sequence, `EpollWait` as a flag of each node. `epollfd_ctx__trigger_repoll` is a step of `Repoll` and without effect on nodes.
- The registrations of `EpollWait.EpollFD` are a map; that the tree of `RbTree` implements such a set is `WavlTree.RunMembers` together with the contracts of `RbTree.RbHead`.
- RwLock.NotStuck: no fairness among threads is claimed, so a single blocked reader may be overtaken.
- SignalFd.NoLostSignal: that draining ends is not claimed, since signals may keep arriving.
