# Verified models of mpio's event loop and buffers

mpio is a multi-threaded event loop (`wavy`) with reference-counted buffers. This
project models five parts of it in Dafny and proves what they keep, for all
inputs and all runs. `dafny verify dfyconfig.toml` checks everything.

## What is modelled

**The running loop** (`WavySystem`) is a state machine over all threads at once:
N workers under one mutex and two condition variables, the poll baton, the backlog
with its cursor, the task, "more" and output queues, the two one-shot kernels, one
output queue per fd with its lock, the `m_watching` counter, the threads that write
and the threads that flush. One step is one stretch between two points at which
another thread can interfere: a stretch under the loop mutex
(`mpsrc/wavy_loop.cc:197-297`), one step of a per-fd critical section (push,
`add_fd`, counter increment, `try_write`, `remove`, `clear`, counter decrement are
separate), a kernel wait, a handler's call. What the code does not decide is a
parameter of the action: what the kernels report and accept, whom a signal wakes,
what handlers do, which thread runs, spurious wakeups. `IsRun` is any finite
sequence of enabled steps from a started loop; the theorems hold in every state of
every run.

- `LoopProtocol`: single poller, exact dispatch, no lost work wakeup, and the exact
  number of workers from which that holds.
- `TokenProtocol`: one-shot tokens of the main kernel, and the exact condition under
  which they are exclusive.
- `OutProtocol`, `OutTheorems`: registration of each fd in the out kernel, the
  counter, stream order, finalizers.
- `LoopLaws`, `FdLaws`: what each step does, told from the action, the state it meets
  and the kernel's answers; what that makes of runs, told from the calls alone; and
  exactly when an fd fails.
- `Delivery`: pending output can always be delivered.
- `FlushProtocol`: no lost flush wakeup, and what a return of `flush` means.
- `Progress`: queued work is served. While nothing new arrives, steps lower a measure
  whoever takes them, and a loop of two workers or more can stop only at rest.

**The packed output queue** has two layers. `XferSpec` says what draining a sequence
of records does under any kernel that keeps its contract, and `DrainMeaning` accounts
for it a second time from the kernel's answers alone. `XferPacked`, `XferExecute`
and `Xfer` are the in-place code: tagged records laid end to end in one growable
array, drained and compacted by loops over it, proved to do exactly what `XferSpec`
says. `OutCalls` joins the layers: the bodies of `write`, `commit_raw`, `commit` and
`write_event` on packed queues do to the records what the machine's steps do, call by
call; `PackedRuns` extends this to what whole runs do to an fd.

**The reference-counted buffers** are machines over values (`StreamSpec`,
`SharedSpec`, on the heap of `RefBlocks`) with the theorems over runs
(`StreamProofs`, `StreamTheorems`, `SharedProofs`), and classes (`StreamBuffer`,
`SharedBuffer`) whose methods are proved equal to the machines' steps. Other threads
may drop, swap and (for `shared_buffer`) copy handles between any two operations and
between the two count checks inside one.

**The xident allocator** (`Xident`), **the paged array** (`SparseArray`) and the
**doubling loops** in 64-bit sizes (`Growth`).

Four promises of the code hold only under a condition, which is proved exact:

- Freedom from lost work wakeups holds from two workers on and not below
  (`LoopProtocol.NeverStrandedIff`; a lone worker goes to poll with a task queued).
- One-shot exclusivity along a run holds iff no ident is added while an event for it
  is outstanding (`TokenProtocol.ExclusiveIff`; `DirtyRunExists` gives a run in which
  a handler removed and added again in mid-flight runs in two workers at once).
- A finalizer handed in once runs exactly once iff no call found the fd's queue empty
  and had its direct write stopped for good before it (`OutTheorems.FinalizerRanIff`;
  `FinalizerLost` gives a run of two steps in which it never runs).
- A doubling loop over `size_t` leaves unwrapped with enough iff the need is at most
  the largest `start * 2^k` below 2^64, and leaves at all iff one of the first 64 values
  of its variable meets the need (`Growth.DoublingFitsIff`, `LeavesIff`); from a power
  of two both mean a need of at most 2^63 (`PowerStartIff`).

## Model

| member | source | states |
|---|---|---|
| LoopProtocol.DispatchStep | mpsrc/wavy_loop.cc:137-297 | every step of any thread keeps: at most one worker holds the poll baton, `m_pollable` is true iff none does, the backlog is used up while it is false, reported events equal taken ones plus unread ones, submitted tasks equal started ones plus queued ones |
| LoopProtocol.SinglePoller | mpsrc/wavy_loop.cc:230-257 | in every state of every run at most one worker is in the kernel wait or on its way back from it; meanwhile `m_pollable` is false and `m_off == m_num` |
| LoopProtocol.ExactDispatch | mpsrc/wavy_loop.cc:137-259 | tasks start in submission order, none lost or repeated; events are taken in the order reported, and those not yet taken are in the unread backlog or with the poller |
| LoopLaws.DispatchOfCalls | mpsrc/wavy_loop.cc:137-259 | in every run the tasks of the calls of submit, in order, are those started followed by those queued, and events are taken in the order in which the waits returned them |
| LoopLaws.MayHappen | mpsrc/wavy_loop.cc:137-162 | nobody is held up but by the code: handlers may make any call, users may submit, add, remove, write and flush, and a kernel in which somebody waits may report any armed idents |
| LoopLaws.AnyReport | mpsrc/wavy_out.cc:415-424 | a worker that has the mutex may be told by the out kernel of any armed fds |
| LoopLaws.SectionLaw | mpsrc/wavy_loop.cc:208-259 | whom a worker serves when it has the mutex: "more" events first; while another polls, output, then tasks, else sleep; while none does, tasks only above 16, then unread events, else polling; a task leaves its queue from the head, and if others remain a sleeper is woken |
| LoopLaws.EventLaw | mpsrc/wavy_loop.cc:259-276 | a step that takes the out kernel's event puts every fd reported on the out queue, disarms exactly these, and goes on to re-arm; any other event enters its handler |
| LoopLaws.WorkerLaw | mpsrc/wavy_loop.cc:165-294 | where every other step leaves its worker: only the last task of the queue leads to a broadcast, and the returning poller frees the baton and leaves its other events unread |
| LoopLaws.OthersLaw | mpsrc/wavy_loop.cc:197-297 | no step changes another worker except by waking it |
| LoopLaws.SignalLaw | mpsrc/wavy_loop.cc:137-256 | submit, `more()` and the returning poller each wake a sleeper if there is one |
| LoopLaws.OutqLaw | mpsrc/wavy_out.h:66-71 | the out queue is filled at the end by what is reported and emptied from the head, into the hands of the worker that serves |
| LoopLaws.OutDispatchRun | mpsrc/wavy_loop.cc:185-268 | in every run the write events reported are those served, each once and in that order, followed by those queued |
| LoopLaws.MoreLaw | mpsrc/wavy_loop.cc:208-212 | the "more" queue is filled by calls of `more()` that still have their event and emptied from the head, into a handler |
| LoopProtocol.WakeStep | mpsrc/wavy_loop.cc:137-297 | every step keeps: two workers are up while the baton is free, and one is up while a task, an output event or a "more" event is queued |
| LoopProtocol.SignalServes | mpsrc/wavy_loop.cc:141 | after a signal on `m_cond` some worker is neither asleep nor polling, whomever the signal wakes |
| LoopProtocol.NoLostWork | mpsrc/wavy_loop.cc:197-297 | with two workers or more, whenever work is queued some worker is neither polling nor asleep unsignalled |
| LoopProtocol.LoneWorkerStrands | mpsrc/wavy_loop.cc:214-233 | with fewer than two workers there is a run that leaves a submitted task to nobody but a poller |
| LoopProtocol.NeverStrandedIff | mpsrc/wavy_loop.cc:197-297 | no run from a started loop ever strands queued work iff the loop has at least two workers |
| TokenProtocol.TokenStep | mpsrc/wavy_loop.cc:158-294 | every step that adds no ident with an outstanding event keeps: at most one token per ident, exactly one while registered |
| TokenProtocol.PollReturnMoves | mpsrc/wavy_kernel_epoll.h:384-388 | a wait moves one token per reported ident from the kernel to the poller's hands, and no other token |
| TokenProtocol.MoreMoves | mpsrc/wavy_loop.cc:445-452 | `more()` moves the handler's token to the "more" queue, if it still has it; a second call changes nothing |
| TokenProtocol.NextMoves | mpsrc/wavy_loop.cc:454-461 | `next()` finds the ident disarmed and gives the handler's token back to the kernel iff the ident is still registered, else the token is gone; a second call changes nothing |
| TokenProtocol.TokenRemove | mpsrc/wavy_loop.cc:463-470 | `remove()`, called any number of times, makes and duplicates no token |
| LoopLaws.KernelLaw | mpsrc/wavy_kernel_epoll.h:94-106 | for every step and every ident: it is registered afterwards iff the step adds it, or it was registered and the step is not its own `remove()`, its `remove_handler` or its handler's return with false; and armed iff registered and armed by this step, or armed before and not reported |
| LoopLaws.GoneAfterRemove | mpsrc/wavy_loop.cc:158-162 | `remove_handler`, and a handler's first `remove()`, leave the ident unregistered whatever came before; a repeated `remove()` changes nothing |
| LoopLaws.RegisteredIff | mpsrc/wavy_loop.cc:145-162 | in every run an ident is registered iff the latest add or removal of it was an add |
| TokenProtocol.HandlerReturnMoves | mpsrc/wavy_loop.cc:276-294 | after a handler returns or throws, a token passed on before stays where it is; otherwise it is back in the kernel iff the handler goes on and the ident is still registered; in the other cases token and registration are gone together |
| TokenProtocol.ExclusiveIff | mpsrc/wavy_kernel_epoll.h:94-106 | along any run every ident has at most one token iff no ident is added while an event for it is outstanding |
| TokenProtocol.RegisteredNeverDeaf | mpsrc/wavy_kernel_epoll.h:390-397 | in a run that adds cleanly a registered ident always has exactly one token: it is armed or its event is on its way |
| TokenProtocol.HandlersExclusive | mpsrc/wavy_loop.cc:268-294 | in a run that adds cleanly no two workers are inside handlers of the same ident, unless one of them has passed the event on |
| TokenProtocol.DirtyRunExists | mpsrc/wavy_loop.cc:145-162 | from any started loop of two workers or more there is a run of remove and add around an event in flight that ends with two workers inside the handler of the same ident |
| OutProtocol.OutStep | mpsrc/wavy_out.cc:415-519 | every step keeps, for each fd and each point of its critical section: its registration, its number of write tokens, `m_watching` and where each item handed in went |
| OutProtocol.FireMoves | mpsrc/wavy_out.cc:426-428 | reporting fds takes one write token per fd from the out kernel to the out queue, and no other |
| OutProtocol.ServeMoves | mpsrc/wavy_loop.cc:185-191 | `do_out` moves the write token at the head of the out queue to the worker, and no other |
| OutProtocol.OutWriteAdd | mpsrc/wavy_out.cc:455-457 | `add_fd` finds the fd unregistered and makes its one token |
| OutProtocol.OutDrainLock | mpsrc/wavy_out.cc:431-436 | a worker that gets the fd's lock with a write event finds a non-empty queue and a disarmed registration |
| OutProtocol.RearmMoves | mpsrc/wavy_out.cc:449-452 | a drain that would block takes the one token from the worker and arms the fd in the out kernel again, its queue non-empty |
| OutProtocol.OutDrainCount | mpsrc/wavy_out.cc:445-448 | a drain that finished or failed leaves an empty queue, no registration and no token, and one count less |
| FdLaws.DrainTryLaw | mpsrc/wavy_out.cc:431-443 | by the kernel's answers: a drain does exactly the items the answers account for, keeps the others queued in order, and goes on to re-arm iff the kernel would block |
| FdLaws.BlockedDrainRearms | mpsrc/wavy_out.cc:440-452 | a drain that would block (EAGAIN, EINTR or a partial write) ends with the rest queued, the fd armed and the counter as it was |
| FdLaws.EndedDrainClears | mpsrc/wavy_out.cc:445-448 | any other drain ends with the fd unregistered, its queue given up and its finalizers run, and the counter one less; the worker that reaches zero, and no other, goes on to broadcast |
| FdLaws.AppendLaw | mpsrc/wavy_out.cc:467-470 | a call that finds output queued adds its records to it and returns |
| FdLaws.TryLaw | mpsrc/wavy_out.cc:472-519 | by the kernel's answers: a call that finds nothing queued does exactly the items accounted for, and queues the others iff the kernel would block, else they are refused |
| FdLaws.BlockedCallWatches | mpsrc/wavy_out.cc:455-519 | a call that would block ends with the rest queued, the fd armed and counted |
| FdLaws.OtherFds | mpsrc/wavy_out.cc:431-519 | a critical section changes no other fd |
| OutTheorems.RegistrationProtocol | mpsrc/wavy_out.cc:431-519 | in every run, outside its critical section an fd has exactly one write token and is registered iff its queue is non-empty, and none otherwise |
| OutTheorems.WatchingCounts | mpsrc/wavy_out.cc:445-459 | `m_watching` is always the number of fds with output pending, corrected for sections in progress, and never negative |
| OutTheorems.StreamOrder | mpsrc/wavy_out.cc:172-519 | up to an fd's first failure the bytes delivered followed by the bytes queued are the bytes accepted, in lock order, however writes are split and whoever performs them |
| FdLaws.EnteredRun | mpsrc/wavy_out.cc:462-519 | in every run what an fd has accepted, followed by what a call in progress is about to write, is what was handed to all calls on it, in lock order |
| FdLaws.SoundIff | mpsrc/wavy_out.cc:172-519 | in every run nothing of an fd is refused, dropped or about to be iff no call lost items and no drain lost bytes to an answer that is an error or zero |
| FdLaws.GentleNeverFails | mpsrc/wavy_out.cc:172-519 | in every run in which no such answer is given to the fd's calls and drains and no empty record is handed in, everything that became of its items is delivery |
| FdLaws.DeliveredInOrder | mpsrc/wavy_out.cc:172-519 | in every run without such a loss the items done are a prefix of what was handed to the calls, and those queued or in a call's hands are the rest, in order |
| OutTheorems.EffectsInOrder | mpsrc/wavy_out.cc:172-519 | failed or not, the k-th thing that happened on an fd happened to the k-th item handed in: finalizers run in queue order, after all earlier bytes were delivered or given up |
| OutTheorems.FinalizerAtMostOnce | mpsrc/wavy_out.cc:224-231 | runs so far plus queued copies of a finalizer never exceed the number of times it was handed in |
| OutTheorems.QueuedFinalizerRunsOnce | mpsrc/wavy_out.cc:431-453 | a finalizer handed in once that entered a per-fd queue has run exactly once whenever that queue is empty later |
| OutTheorems.LeftRun | mpsrc/wavy_out.cc:462-519 | an item is given up inside a call iff some call found the fd's queue empty and had its direct write stopped for good before that item |
| OutTheorems.FinalizerRanIff | mpsrc/wavy_out.cc:462-492 | a finalizer handed in once has, whenever the queue is empty, run exactly once iff no call found the queue empty and had its direct write stopped for good before it, and not at all otherwise |
| OutTheorems.FinalizerLost | mpsrc/wavy_out.cc:467-476 | from any start, a byte and a finalizer written to an fd whose first write fails end with an empty queue and a finalizer that never ran |
| OutTheorems.FinalRun | mpsrc/wavy_out.cc:345-453 | over any stretch of any run a queued finalizer leaves the queue only by being run |
| FlushProtocol.FlushStep | mpsrc/wavy_loop.cc:165-195 | every step keeps: if a flusher sleeps with the counter at zero and no task queued, some worker owes a broadcast |
| FlushProtocol.NoLostFlush | mpsrc/wavy_loop.cc:407-420 | in every run a flusher asleep with nothing left to wait for is about to be woken, though the counter changes outside the loop mutex |
| FlushProtocol.ZeroMeansSettled | mpsrc/wavy_out.h:73-76 | while `empty()` is true every call that has returned is fully accounted for in what was done or given up on its fd |
| FlushProtocol.FlushOrigin | mpsrc/wavy_loop.cc:407-410 | a flusher in its loop compares against the calls that had returned when its latest flush began |
| FlushProtocol.FlushMeaning | mpsrc/wavy_loop.cc:407-420 | when flush returns there was one state in which no task was queued and every write or commit that had returned before the flush began was dealt with, and delivered in full on every fd that has not failed |
| FlushProtocol.FlushMeaningOfCalls | mpsrc/wavy_loop.cc:407-420 | when flush returns, every task submitted by then has been started, and what any fd's calls were handed, up to any state before the flush in which they had all returned, is dealt with, and delivered in full unless the kernel refused output of the fd for good |
| LoopLaws.FlushLaw | mpsrc/wavy_loop.cc:409-412 | a flusher that looks returns iff the counter is zero and no task is queued, else it sleeps |
| LoopLaws.FlusherLaw | mpsrc/wavy_loop.cc:179-194 | a broadcast sends every sleeping flusher to look again, and nothing else the loop does touches one |
| Progress.InternalLowers | mpsrc/wavy_loop.cc:165-297 | while nothing new arrives every step of a worker or of the holder of an fd's lock lowers one measure of the whole loop |
| Progress.HolderCanMove | mpsrc/wavy_out.cc:431-519 | in every phase of a critical section its holder has a next step |
| Progress.WorkerCanMove | mpsrc/wavy_loop.cc:197-297 | a worker that is neither asleep nor in the kernel wait can move, or the holder of the lock it waits for can |
| Progress.SomebodyMoves | mpsrc/wavy_loop.cc:197-297 | with two workers or more, short of rest some worker or lock holder has such a step, whatever the kernel has to say |
| Progress.StuckIsRest | mpsrc/wavy_loop.cc:197-297 | with two workers or more, a reachable state without such a step is at rest: one worker in the kernel wait, all others asleep, every queue and the backlog empty, no fd locked |
| TokenProtocol.OutKernelRun | mpsrc/wavy_loop.cc:264-268 | in every run, however handlers are added and removed, the out kernel stays registered in the main kernel with exactly one token |
| Progress.RestIsArmed | mpsrc/wavy_kernel_epoll.h:390-397 | at rest every fd with output pending is armed in the out kernel and the out kernel in the main one, and in a run that adds cleanly every registered ident is armed |
| Progress.RestFlusher | mpsrc/wavy_loop.cc:407-420 | at rest a flusher sleeps only while some fd, armed all the way up, has output pending, and a woken one returns iff none has |
| Progress.InternalTakes | mpsrc/wavy_loop.cc:165-218 | such a step takes from the head of one queue at most, into a worker's hands, and adds to none |
| Progress.InternalBounded | mpsrc/wavy_loop.cc:197-297 | no stretch of such steps in any run is longer than the measure it starts with |
| Progress.WorkIsServed | mpsrc/wavy_loop.cc:197-297 | however threads are scheduled, such steps can end only at rest, within that bound, and then every task queued before has been started, in order |
| Progress.WriteEventTaken | mpsrc/wavy_loop.cc:185-191 | over any stretch of any run that ends with the out queue empty, every output event queued at its start was in some worker's hands on the way |
| Progress.MoreEventTaken | mpsrc/wavy_loop.cc:208-212 | the same for every event queued by `more()` |
| Progress.QueuedIsServed | mpsrc/wavy_loop.cc:185-191 | every fd on the out queue, by EventLaw every fd reported, has later been in some worker's hands for writing by the time the queue is empty |
| Progress.ReportedIsServed | mpsrc/wavy_out.cc:415-429 | in every run, whenever the out queue is empty, the write events served so far are exactly those reported so far, in that order, each in some worker's hands |
| Progress.CanComeToRest | mpsrc/wavy_loop.cc:197-297 | from every state of every run with two workers or more there is such a finite continuation to rest, even with a kernel that always blocks, in which every queued task is started |
| Delivery.CanDeliver | mpsrc/wavy_out.cc:172-519 | from every state of every run with two workers or more in which the kernel has refused nothing of an fd, there is a continuation after which everything ever handed to the fd has been delivered, and its finalizers run, in order |
| XferSpec.AdvanceDropsSent | mpsrc/wavy_out.cc:247-266 | the vector left after a partial write stands for exactly the bytes not sent, and is empty only if all were |
| XferSpec.CutConserves | mpsrc/wavy_out.cc:214-266 | a partly sent record's sent bytes followed by the shortened record are the record |
| XferSpec.DrainConserves | mpsrc/wavy_out.cc:172-276 | whatever the kernel answers, what was done followed by what is left is what there was; a drain that wants to go on has something left |
| DrainMeaning.RecordMeaning | mpsrc/wavy_out.cc:75-85 | what a memory range, a file range, a finalizer and a null finalizer stand for, item by item |
| DrainMeaning.AnswerLaw | mpsrc/wavy_out.cc:180-266 | what each answer does to a record of n bytes: EAGAIN or EINTR stops and goes on later, an error or zero stops for good, k < n bytes leave exactly the other bytes, n or more finish the record and go on with the next answer |
| DrainMeaning.FinalizerLaw | mpsrc/wavy_out.cc:224-231 | a finalizer record runs, takes no answer and never stops the drain |
| DrainMeaning.DrainIs | mpsrc/wavy_out.cc:172-276 | for all records and answers: the items done are the first so many, counted from the answers alone, those left are the others, and the result is true iff the kernel would block |
| DrainMeaning.BenignDrain | mpsrc/wavy_out.cc:172-276 | without errors, zero answers and empty records a drain that does not want to go on has nothing left |
| DrainMeaning.TakeAllDrains | mpsrc/wavy_out.cc:172-276 | a kernel that takes all it is offered gets the whole queue |
| XferPacked.EncodeConcat | mpsrc/wavy_out.cc:156-162 | packed queues laid end to end are the packing of the concatenated queues |
| XferPacked.TypeWordExact | mpsrc/wavy_out.cc:119-129 | below 2^31 entries the shifted 32-bit type word gives the vector length back and is neither of the other two tags |
| XferPacked.EncodeInjective | mpsrc/wavy_out.cc:87-154 | a packed buffer decodes in one way only |
| XferExecute.DropEntries | mpsrc/wavy_out.cc:256-262 | a partly sent vector that loses its first i entries is repacked at the head under a new header with the later records behind it, and nothing outside the range changes |
| XferExecute.SettleVec | mpsrc/wavy_out.cc:247-268 | charging the accepted bytes to a packed vector either uses up every entry and changes nothing, or leaves exactly the unsent vector and the later records at the head |
| XferExecute.ExecuteOne | mpsrc/wavy_out.cc:176-271 | one turn of the switch finishes the record, or stops with exactly the unsent part packed at the head |
| XferExecute.Execute | mpsrc/wavy_out.cc:172-276 | for every packed buffer and every kernel, the range afterwards decodes to exactly the unsent suffix of the records, the result and the trace are those of the abstract drain, and nothing outside the range changes |
| Xfer.FillVec | mpsrc/wavy_out.cc:107-129 | packs a vector record at the tail and writes nothing else |
| Xfer.FillSendfile | mpsrc/wavy_out.cc:131-142 | packs a sendfile record at the tail and writes nothing else |
| Xfer.FillFinalize | mpsrc/wavy_out.cc:144-154 | packs a finalizer record at the tail and writes nothing else |
| Xfer.Queue.Reserve | mpsrc/wavy_out.cc:296-310 | growing keeps the records and makes the room asked for; the new capacity is the doubling of twice the old one plus 72, and the bytes moved grow by those in use |
| Xfer.Queue.Push | mpsrc/wavy_out.cc:313-343 | appends one record; size, capacity, bytes moved and peak change as one append of its size makes them |
| Xfer.Queue.PushRaw | mpsrc/wavy_out.cc:156-162 | appends records that are already packed, with the same account of size, capacity, bytes moved and peak |
| Xfer.Queue.Migrate | mpsrc/wavy_out.cc:345-366 | moves every record to the end of the other queue, as one append, or hands the block over if that has none, and leaves this one empty |
| Xfer.Queue.Clear | mpsrc/wavy_out.cc:368-396 | empties the queue and runs exactly its non-null finalizers, in order |
| Xfer.RunFinalizers | mpsrc/wavy_out.cc:370-389 | the clearing loop runs exactly the non-null finalizers of the packed records, in order |
| Xfer.Queue.TryWrite | mpsrc/wavy_out.cc:279-290 | keeps exactly the unsent records, and shuts the fd down iff it stops with records left |
| Xfer.Queue.Empty | mp/wavy.hmpl:358-361 | head and tail coincide iff there are no records |
| Xfer.ClearOne | mpsrc/wavy_out.cc:370-389 | steps over exactly one record of any kind and yields its finalizer if it has one |
| Xfer.AppendsAmortized | mpsrc/wavy_out.cc:296-310 | after any sequence of appends the capacity is at most twice the stored size plus 72, and all bytes moved by realloc total at most the capacity |
| Xfer.PushAll | mpsrc/wavy_out.cc:296-343 | a new queue onto which any records are pushed holds them, within that capacity and that number of bytes moved |
| OutCalls.WriteIsVec | mpsrc/wavy_out.cc:494-516 | for each kernel answer what a plain write does, and that a one-entry vector record does the same |
| OutCalls.Write | mpsrc/wavy_out.cc:494-519 | on the packed queue `write` does what the machine's step does: the same queue, exactly the same items delivered and refused, and the same decision to watch the fd |
| OutCalls.CommitRaw | mpsrc/wavy_out.cc:462-476 | the same for `commit_raw`; what is refused for good is discarded |
| OutCalls.Commit | mpsrc/wavy_out.cc:478-492 | the same for `commit`; what is refused for good stays in the caller's xfer |
| OutCalls.RealizesDid | mpsrc/wavy_out.cc:462-519 | what such a call reports as done is what the machine records as done |
| OutCalls.WriteEvent | mpsrc/wavy_out.cc:431-453 | drains the queue as the machine does; unless the kernel would block, clears it; the bytes delivered and the finalizers run are exactly those the machine records |
| PackedRuns.StepChanges | mpsrc/wavy_out.cc:431-519 | a step of the machine changes what is queued and done on an fd only as a call, a drain or a clear of that fd does |
| PackedRuns.RunIsChanges | mpsrc/wavy_out.cc:431-519 | in every run what is queued and done on an fd is the result of the changes made to it, in lock order |
| PackedRuns.AcceptedIsCalls | mpsrc/wavy_out.cc:462-519 | in every run the changes made to an fd carry the records handed to the calls on it, in lock order, up to a call in progress |
| PackedRuns.CallsInOrder | mpsrc/wavy_out.cc:172-519 | up to an fd's first failure the bytes delivered, those queued and those a call is about to write are the bytes handed to all calls, in that order |
| PackedRuns.Make | mpsrc/wavy_out.cc:278-492 | the in-place code makes any one change to the packed queue and does exactly its items |
| PackedRuns.PackedRun | mpsrc/wavy_out.cc:172-519 | for every run and fd, the in-place code put through the run's changes ends with the packing of the fd's queue in its block, having delivered and run exactly what the run did there, in order |
| RefBlocks.DecrKeeps | mp/stream_buffer.h:119-125 | a block leaves the heap exactly when its last reference goes, is freed then and only then, and no other block or byte changes |
| StreamProofs.StepKeeps | mp/stream_buffer.h:189-304 | every operation, and every step of another thread, keeps: each count is the owner's share plus the occurrences in all handles, the current block is not in `m_ref`, used plus free is the block size |
| StreamProofs.ReserveLaw | mp/stream_buffer.h:257-304 | what reserve does by cases: an empty unreferenced buffer starts over in its whole block, a block with room is kept, an unreferenced block without consumed bytes is grown to at least twice its size and not put into `m_ref`, any other goes to `m_ref` and its data to a new block |
| StreamProofs.EnvLaw | mp/stream_buffer.h:161-186 | a handle gives up exactly one reference at a time, which frees the block iff it is the last; a swap exchanges exactly two handles |
| StreamProofs.RetainLaw | mp/stream_buffer.h:250-255 | the handle gets `m_ref` and the current block, `m_ref` is empty, no other handle changes and the buffer goes on in its block |
| StreamProofs.OwnerUndisturbed | mp/stream_buffer.h:161-186 | whatever handles other threads drop or swap, the owner's block and its data stay |
| StreamTheorems.AccountingRun | mp/stream_buffer.h:114-304 | in every reachable state each block's count is the owner's share plus its occurrences in all handles, and a block is live iff it has not been freed |
| StreamTheorems.NothingLeaks | mp/stream_buffer.h:161-209 | once the buffer is destroyed and every handle is empty, every block ever allocated has been freed exactly once |
| StreamTheorems.PinnedStep | mp/stream_buffer.h:250-304 | no single step changes, moves or frees a byte below the used mark of a block that stays in a handle |
| StreamTheorems.PinnedRun | mp/stream_buffer.h:250-304 | as long as some handle holds the block, over any stretch of any run, its bytes below the used mark are unchanged and the block is live |
| StreamTheorems.DataStep | mp/stream_buffer.h:211-304 | filling appends to the data, consuming drops a prefix, every other step leaves the data alone |
| StreamTheorems.FifoRun | mp/stream_buffer.h:211-304 | in every run the data is all the filled bytes less the consumed prefix |
| StreamBuffer.Buffer.constructor | mp/stream_buffer.h:189-204 | makes the machine's initial state, with the accounting right, no data, and the initial size less the count free |
| StreamBuffer.Buffer.ReserveBuffer | mp/stream_buffer.h:257-268 | is the machine's reserve step; at least the requested room is free afterwards and the data is unchanged |
| StreamBuffer.Buffer.ExpandBuffer | mp/stream_buffer.h:270-304 | grows in place or replaces the block, in the machine's cases; the accounting and the data are kept and at least the requested room is free |
| StreamBuffer.Buffer.FillBuffer | mp/stream_buffer.h:221-225 | is the machine's fill step; the bytes stored at `buffer()` are appended to the data |
| StreamBuffer.Buffer.DataConsumed | mp/stream_buffer.h:237-240 | is the machine's consume step; the data loses the given prefix |
| StreamBuffer.Buffer.Retain | mp/stream_buffer.h:250-255 | the handle gets the current block and all blocks replaced since the last call, what it held before is released, the data is unchanged |
| StreamBuffer.Buffer.Destruct | mp/stream_buffer.h:206-209 | releases the current block and everything in `m_ref`, each once |
| SharedProofs.SoleOwner | mp/shared_buffer.h:196-202 | a count of one seen by the owner means no handle is on its block |
| SharedProofs.EnvInv | mp/shared_buffer.h:136-167 | copies, drops and swaps of handles by other threads cannot disturb the owner or make regions overlap |
| SharedProofs.HoldKeeps | mp/shared_buffer.h:208-214 | a region handed out by `hold` meets no region whose handle is live |
| SharedProofs.ReserveKeeps | mp/shared_buffer.h:196-251 | whatever happens between the two count checks, reserve keeps counts and regions right and makes the requested room |
| SharedProofs.ReserveLaw | mp/shared_buffer.h:196-251 | what reserve does by cases: an unreferenced block starts over, and is grown to at least twice its size if too small; a referenced one is kept while it has room, else left to its handles |
| SharedProofs.EnvLaw | mp/shared_buffer.h:136-167 | a copy adds one reference, a drop gives one up and frees the block iff it is the last, a swap exchanges exactly two handles |
| SharedProofs.AdvanceLaw | mp/shared_buffer.h:208-221 | hold and skip pass over the same bytes, as many as asked for or as are free, and hold returns exactly these |
| SharedProofs.HeldIsStored | mp/shared_buffer.h:186-214 | what the owner stores at `buffer()` and then holds is what the handle's region has |
| SharedProofs.StepKeeps | mp/shared_buffer.h:128-251 | every operation and every step of another thread keeps the accounting and the disjointness of regions |
| SharedProofs.RegionsDisjoint | mp/shared_buffer.h:196-251 | in every run two live handles are copies of one hold or their regions are disjoint, each block is live, and the owner writes beyond every live region |
| SharedProofs.RegionStep | mp/shared_buffer.h:196-251 | no step changes a byte of a region whose handle stays live |
| SharedProofs.HeldBytesRun | mp/shared_buffer.h:196-251 | over any stretch of any run in which a handle on a region is live, the region stays in place with its bytes |
| SharedProofs.NothingLeaks | mp/shared_buffer.h:142-184 | once the buffer is destroyed and every handle is null, every block ever allocated has been freed exactly once |
| SharedBuffer.Buffer.constructor | mp/shared_buffer.h:170-179 | makes the machine's initial state, with the accounting right and the initial size less the count free |
| SharedBuffer.Buffer.ReserveBuffer | mp/shared_buffer.h:196-206 | is the machine's reserve step; at least the requested room is free afterwards |
| SharedBuffer.Buffer.ExpandBuffer | mp/shared_buffer.h:223-251 | grows in place or replaces and releases the block, in the machine's cases; accounting and regions are kept and at least the requested room is free |
| SharedBuffer.Buffer.HoldRegion | mp/shared_buffer.h:208-214 | hands out the next bytes, as many as asked for or as are free, behind every live region of the block |
| SharedBuffer.Buffer.SkipBytes | mp/shared_buffer.h:216-221 | passes over as many bytes as asked for or as are free, and keeps the accounting and the regions |
| SharedBuffer.Buffer.Destruct | mp/shared_buffer.h:181-184 | releases the owner's reference, and keeps the accounting of the handles still out |
| Xident.ScanCovers | mpsrc/wavy_kernel_kqueue.h:77-79 | 2N probes look at every one of N slots even when the 32-bit counter wraps mid-scan and N does not divide its range |
| Xident.Idents.AllocXident | mpsrc/wavy_kernel_kqueue.h:75-85 | run alone, takes one free slot and nothing else, gives an ident in [fdmax, fdmax + N), and fails iff all N slots are taken |
| Xident.Idents.FreeXident | mpsrc/wavy_kernel_kqueue.h:87-96 | frees exactly the given slot, and says whether it was taken |
| Xident.AloneFinds | mpsrc/wavy_kernel_kqueue.h:75-85 | in the interleaved machine a call that runs alone ends within 4N + 1 steps, holding one slot that was free, or failed, which happens iff all slots are taken |
| Xident.ExactRun | mpsrc/wavy_kernel_kqueue.h:75-96 | under every interleaving of fetch-and-add, compare-and-swap and release steps a slot is taken iff exactly one holder has it |
| Xident.HoldersDiffer | mpsrc/wavy_kernel_kqueue.h:75-96 | under every interleaving two live holders have different idents, in [fdmax, fdmax + N) |
| SparseArray.AtUnique | mp/sparse_array.hmpl:205-215 | page number and offset determine the index and the other way round |
| SparseArray.SetIffLast | mp/sparse_array.hmpl:99-125 | in the partial map an index is set iff the latest operation on it was a set whose constructor returned, and as many objects were built as constructors returned |
| SparseArray.Sparse.Get | mp/sparse_array.hmpl:139-161 | gives the object the map holds at the index, and none where it holds none, beyond the capacity too |
| SparseArray.Sparse.Test | mp/sparse_array.hmpl:163-168 | is true iff the map holds an object at the index |
| SparseArray.Sparse.Capacity | mp/sparse_array.hmpl:170-174 | covers every set index |
| SparseArray.Sparse.SetImpl | mp/sparse_array.hmpl:182-188 | enables the slot, having destroyed the object there if and only if there was one |
| SparseArray.Sparse.Cover | mp/sparse_array.hmpl:179-181 | adds pages until the index is covered; existing pages and the map stay |
| SparseArray.Sparse.Revert | mp/sparse_array.hmpl:191-195 | after a throwing constructor the slot is disabled and the array consistent again |
| SparseArray.Sparse.Set | mp/sparse_array.hmpl:99-106 | maps the index to the new object, or to nothing if the constructor threw; destroys the old object, if any, once |
| SparseArray.Sparse.Reset | mp/sparse_array.hmpl:119-125 | unmaps a set index and destroys its object once |
| SparseArray.Sparse.Replay | mp/sparse_array.hmpl:99-125 | any sequence of sets, throwing sets and resets does to the array what it does to the partial map |
| SparseArray.Sparse.Destruct | mp/sparse_array.hmpl:84-97 | after the destructor every object ever constructed has been destroyed exactly once |
| Growth.DoubleUntil64 | mpsrc/wavy_out.cc:302 | in `size_t` arithmetic the doubling loop terminates with the unbounded answer whenever the need is no more than doubling the start reaches below 2^64 |
| Growth.DoublingFitsIff | mp/stream_buffer.h:274 | the `size_t` loop leaves with a size that meets the need and never wrapped iff the need is at most the largest `start * 2^k` below 2^64 |
| Growth.CapacityUpToQuarterFits | mp/shared_buffer.h:226-239 | with a capacity of at most 2^62 and a need of at most 2^63 each of the three doubling loops starts and leaves unwrapped, with a size that meets the need |
| Growth.LeavesIff | mp/stream_buffer.h:274 | the `size_t` loop leaves at all iff one of the first 64 values of its variable meets the need |
| Growth.WrapCanRecover | mp/stream_buffer.h:274 | between the two conditions there is a start from which the loop wraps and still leaves above the need |
| Growth.PowerStartIff | mp/shared_buffer.h:239 | from a power of two the loop is right iff the need is at most 2^63, and leaves at all iff it is |
| Growth.DoublingCanStick | mp/stream_buffer.h:287 | from the default initial size of 8192 the loop never leaves for any need above 2^63 |

## Left out

- TokenProtocol.ExclusiveIff: the handler table is not part of the state; a missing handler is a handler that returns false, so lookup, set and reset are atomic and over-approximated.
- OutTheorems.FinalizerRanIff: what `commit_raw` refuses for good is discarded (mpsrc/wavy_out.cc:472-475) and what `commit` refuses stays with the caller; what the caller does with it is not modelled.
- Progress.WorkIsServed: handlers and tasks are taken to return, and no scheduler is modelled; kernel reports, new submissions and spurious wakeups may postpone rest for ever.
- PackedRuns.PackedRun: puts every call through `commit`, whose contract with the machine `write` and `commit_raw` share; vectors have fewer than 2^31 entries.
- OutCalls.Write: the calls are sequential methods on one fd's buffer; their interleaving with other threads is the machine's.
- Xident.HoldersDiffer: idents are released only by their holder, once.
- SparseArray.Sparse.Reset: resetting an unset index, which destroys an object that was never built, is outside the contract.
- Xfer.Queue.Reserve: sizes are unbounded here, `realloc` always moves the block and never fails; the 64-bit loop is treated in `Growth`.
- StreamBuffer.Buffer.Retain: `retain()` by value and the copy constructor of `stream_buffer::ref`, which initialises from itself (mp/stream_buffer.h:155-159), are not modelled; 32-bit reference counts do not overflow.
- SharedBuffer.Buffer.HoldRegion: the destination handle is null, and only non-null handles are copied (the source increments through a null pointer otherwise).
- The classes `StreamBuffer.Buffer` and `SharedBuffer.Buffer` carry the allocator and the other threads' handles as fields, with interference as a script argument, so that pointers into blocks become (block, offset) pairs.
- Assumed of the kernels: a write accepts at most what it was offered; one-shot registrations fire once until re-armed; re-arming an unregistered fd does nothing; `add_fd` on the out kernel succeeds and no fd is closed while it has output queued. A zero return from a write is a failure, as in the code, so zero-length records fail.
- Memory and files named by queued records do not change; a byte is identified by where it comes from. Fragment memory keeps offsets, sizes and moves but not the byte encoding of integers. Vectors have fewer than 2^31 entries.
- Only the Linux/Solaris `sendfile` branch. The copy in `fill_iovec(head, vec+i, ...)` (mpsrc/wavy_out.cc:259) can overlap its source; it is modelled as an overlap-safe move.
- The number of workers is fixed. `end`, `join`, `detach`, `add_thread`, `run_once` and `run_nonblock`, the `flush` branch without running workers, errors of the kernel wait and exceptions out of `push` or `watch` are not modelled; a wait that times out is a step that changes nothing.
- Memory ordering: atomic operations and mutexes are sequentially consistent; data races on `m_state` are not modelled.
- Connect, listen, timer and signal handlers, `endian`, `iocntl`, `tls_set`, the templating and the build are not modelled. Of `kernel::event` only the ident is: that packing and unpacking the event bits are inverse is not stated.
