# Thera runtime: verified model

This project models the Thera runtime (`runtime/src`) in Dafny and proves what its design relies on. It has five parts.

- **The virtual machine over whole runs.** `Machine` is the interpreter and its driver as a state machine: one transition is one instruction of the running fiber or one driver action. `Runs` proves one invariant of every state of every run, made of four: the scheduler's (`SchedulerInvariant`, `RunScheduler`), no dangling handle (`RunHandles`), the stack discipline (`Stacks`, `StackRuns`, `RunStacks`), and blocked waiters and channels (`RunChannels`). `RunHistory` relates two points of one run, `RunCalls` follows one call through it, `RunFibers` one fiber from spawn to join, `ChannelLaws` one channel, and `RunMemory` the heap account from one safepoint to the next. `ArithLaws` and `InstrLaws` say what single instructions and natives mean. `Schedulers` and `CallFrames` hold the classes that update the same state in place.
- **The heap.** `Heaps` is the slab with its mark-sweep collector, proved exact on arbitrary graphs; `GcCost` is its amortised cost.
- **The insertion-ordered hash map.** `HashMaps` proves the open-addressing map against an association list; `Equality` proves the key law for structural equality and the content hash, and `ValueTrees` what that equality is; `MapNatives` is the take-mutate-restore of the map natives.
- **The bytecode codec.** `Wire` and `Serialize` are the LEB128 primitives (section 7.6 of DWARF 5, section 5.2.2 of the WebAssembly Core Specification) with their writer and reader; `Codec` is the container format; `CodecRoundTrip` and `ModuleRoundTrip` prove the round trip and the section laws, `LegacyModules` covers the other files the decoder reads, `Reencoding` shows that its answers can be written again, and `Utf8` says what text is; `Encoder` and `Decoder` are the imperative encoder and decoder, proved equal to the format.
- **Debug quoting.** `Quoting` relates `quote_str` to the language's own lexer and splitter.

Conventions. A Rust `String` is its UTF-8 bytes and a double its bit pattern. Machine widths are explicit: casts are remainders, shifts are cut to 64 bits, an `|` of disjoint bits is a sum. A class that updates fields in place is proved against a function of its old state, and the laws are proved about that function. What a Rust panic would abort is a precondition or a trap of kind `Panic`.

Inputs of the model. The environment enters `Machine` through `Oracle` and `Event`: byte estimates of new objects, clock readings, socket readiness, worker completions, and the effect of natives outside the model, which are taken to free nothing, to fabricate no handles and to charge the heap only by allocating. IEEE 754 operations are parameters (`Alu`). The native table is a parameter; the codec results need its names to be distinct, as they are in the source. The stack results need a consistent operand-depth assignment for the bytecode (`Stacks.DepthsOk`), which the runtime itself does not check.

Two findings differ from the source's comments.

- `quote_str` says its result is a valid literal. Its escape set determines every string (`Quoting.UnquoteReadsBack`), but the lexer rejects `\0` before a digit; `Quoting.QuoteReadsBack` gives the exact condition.
- The module round trip resolves entry points and field counts; `ModuleRoundTrip.ModuleRoundTripExactly` gives the exact condition for identity.

## Model

| member | source | states |
|---|---|---|
| `Runs.RunSafe` | runtime/src/interp/mod.rs:1196-1285 | After any possible sequence of events from `Vm::run` on a good heap with live arguments and depth-consistent bytecode, the machine satisfies the whole invariant (scheduler, handles, stacks, channels), or the run ended well: no stack bug, no dangling handle, no unschedulable fiber, a value only from the main fiber, and a deadlock report only when every unfinished fiber is blocked and no join, receive or send among them can complete |
| `Runs.StepSafe` | runtime/src/interp/mod.rs:1196-1336 | One transition from a good state leads to a good state or a good end, whatever the driver, the instruction, the native, code nested in a structural fallback (spawns, sends, receives and closes included) or the outside world does |
| `Runs.StartGood` | runtime/src/interp/mod.rs:1196-1198 | The start of a run satisfies the invariant, or is refused with a trap that is no stack bug |
| `RunHistory.RunHistoryHolds` | runtime/src/interp/mod.rs:1196-1336 | Any point of a run fixes for every later point: closed channels stay closed and have accepted nothing more, finished fibers keep their results, a fiber waiting anywhere keeps its stacks until it is scheduled or delivered to, and fibers are scheduled in the order they became ready |
| `RunHistory.RunForward` | runtime/src/interp/mod.rs:559-625 | From any consistent scheduler state, after any events: closed channels stay closed and accept nothing more, results stay, and a fiber out at a worker keeps its stacks until its own delivery |
| `RunHistory.RunFifo` | runtime/src/interp/mod.rs:508-526 | The ready queue at one point is a prefix of the fibers scheduled since plus the queue now: no overtaking, no fiber lost from the queue |
| `RunHistory.RunParked` | runtime/src/interp/mod.rs:629-668 | A fiber that is not running keeps its state until it is scheduled or delivered to, whatever other fibers do |
| `RunHistory.ResumeRestores` | runtime/src/interp/mod.rs:1318-1333 | The fiber scheduled goes on from exactly its saved stacks, or starts its closure with its captures as leading locals |
| `RunHistory.DeliveryExact` | runtime/src/interp/mod.rs:698-709 | A completion finds its fiber suspended and unqueued, replaces only the placeholder on top of its stack, appends it to the queue and changes no other fiber |
| `RunHistory.StepMoves` | runtime/src/interp/mod.rs:1304-1335 | Every transition is a dequeue of the head, one delivery, or leaves all but the running fiber alone and only appends to the queue |
| `RunScheduler.StepKeepsSched` | runtime/src/interp/mod.rs:405-737 | Every transition keeps the scheduler invariant: one running fiber, exact ready queue, every fiber listed where its state says, jobs out exactly those of fibers with a pending finish |
| `RunScheduler.NestedKeeps` | runtime/src/interp/mod.rs:1386-1395 | Natives called by code nested in a fallback keep the scheduler invariant and every fiber's state; a park among them ends the run |
| `RunScheduler.IdleMeansDeadlock` | runtime/src/interp/mod.rs:1264-1278 | When nothing is ready and no outside source is left, every unfinished fiber is blocked, the main one among them, so the silent `Unit` exit is never taken |
| `RunScheduler.ResumeOk` | runtime/src/interp/mod.rs:1304-1335 | The fiber dequeued can always be loaded: "scheduled a running or finished fiber" is never raised |
| `RunHandles.StepKeepsHandles` | runtime/src/interp/mod.rs:1406-1949 | Every transition keeps every handle in stacks, results, unstarted closures, channel buffers, globals, interned strings and live objects on an occupied slot, and raises no dangling-handle panic |
| `RunHandles.CollectKeepsHandles` | runtime/src/interp/mod.rs:789-807 | A collection at a safepoint from the running fiber's stack and the gathered scheduler roots leaves no handle of the machine dangling |
| `RunHandles.MarkingInRange` | runtime/src/heap.rs:407-414 | With live handles a collection marks in range: the preconditions of the in-place collector hold at every safepoint of every run |
| `RunHandles.CollectAtSafepoint` | runtime/src/interp/mod.rs:1437-1440 | The collection a safepoint runs in place is the model's, and leaves no handle dangling; when a safepoint collects and what it keeps is stated by `RunMemory.SafepointExact` |
| `RunMemory.SafepointExact` | runtime/src/interp/mod.rs:1429-1450 | At a safepoint a collection that is due is done and keeps exactly the objects the program can get to from a stack, a fiber, a channel, a global or a constant; afterwards none is due, and the run has ended out of memory exactly when the survivors exceed the ceiling; elsewhere the heap is left alone |
| `RunMemory.PollGc` | runtime/src/interp/mod.rs:1429-1450 | The safepoint in place: collects exactly when one is due and not paused, and reports whether the ceiling is passed |
| `RunMemory.StepKeepsMetered` | runtime/src/heap.rs:190-204 | Every transition leaves a collection due whenever the heap has reached its threshold or passed its ceiling, and keeps the ceiling |
| `RunMemory.RunKeepsMetered` | runtime/src/heap.rs:190-204 | So does every run |
| `RunMemory.PollWithin` | runtime/src/interp/mod.rs:1899-1920 | A run cannot execute more instructions without reaching a safepoint than are left in the functions on its call stack, and its byte account does not move meanwhile |
| `RunMemory.UnpolledProgress` | runtime/src/interp/mod.rs:1406-1949 | An instruction that does not poll allocates nothing and brings the fiber closer to the end of its function |
| `RunMemory.BackwardJumpsPoll` | runtime/src/interp/mod.rs:1899-1920 | A jump polls exactly when it goes backwards |
| `RunStacks.StepKeepsStacks` | runtime/src/interp/mod.rs:1406-1949 | Every transition keeps every fiber's shared stack, running or parked, the flattening of consistent separate stacks, and raises no stack bug |
| `RunStacks.DeliverShape` | runtime/src/interp/mod.rs:698-709 | Overwriting the placeholder with a delivered value keeps the parked stack consistent |
| `RunChannels.StepKeepsChannels` | runtime/src/interp/mod.rs:547-596 | Every transition keeps blocked waiters unable to complete (no lost wake-up) and the channel books balanced |
| `RunChannels.StuckIsRetry` | runtime/src/interp/natives.rs:1677-1777 | A native asks to be re-run exactly when its join, receive or send cannot complete, and such an attempt changes nothing |
| `RunChannels.RetriesTransferOnce` | runtime/src/interp/mod.rs:1690-1718 | One attempt of any native: a re-run one touches neither channels nor history and is saved at the same instruction with the same stack; one that transfers leaves the fiber running past the call |
| `RunCalls.CallTransfersOnce` | runtime/src/interp/mod.rs:1690-1718 | Over any run, a send or receive transfers nothing while the fiber is at the call, however often it is re-executed; the step that leaves the call ends the run or answers: a send transferred its own value, a receive hands the program `Some` of exactly the value its history entry names, which is the next one sent, or `None` having taken nothing; the fiber is then past the call with the arguments replaced by the answer |
| `RunCalls.StepOwnsCalls` | runtime/src/interp/natives.rs:1752-1777 | Only the running fiber completes channel calls |
| `RunCalls.JoinAnswersResult` | runtime/src/interp/natives.rs:1677-1686 | Once a fiber has finished, every later join of it in the run answers what it finished with |
| `RunChannels.NativeConserves` | runtime/src/interp/natives.rs:1744-1784 | For every channel, values accepted equal values handed out followed by the buffer, in order, and the buffer stays within a capacity of at least one; what the program is handed is stated by `RunCalls.CallTransfersOnce` |
| `StackRuns.FiberRunRefines` | runtime/src/interp/mod.rs:1406-1949 | Executions of any length on the shared value stack are the flattening of the same execution on separate per-frame stacks, calls, closure splices, returns and native results included, and raise no stack bug |
| `StackRuns.BelowBaseUntouched` | runtime/src/interp/mod.rs:1343-1366 | While a frame stays active or suspended, its callers' records and every slot below its base keep their contents over executions of any length |
| `Stacks.SharedRefinesSeparate` | runtime/src/interp/mod.rs:1511-1522 | On depth-consistent stacks each instruction does on the shared stack exactly what it does on separate stacks, and keeps the recorded depths |
| `Stacks.IndirectRefines` | runtime/src/interp/mod.rs:1721-1736 | Splicing captures into the closure's slot gives the callee captures then arguments, and leaves the caller short of exactly those operands |
| `Stacks.EnterRefines` | runtime/src/interp/mod.rs:1343-1366 | Entering a function over the top slots gives the callee its arguments padded with `Unit` and leaves everything below its base alone |
| `Stacks.ReturnRefines` | runtime/src/interp/mod.rs:1921-1946 | Return drops the whole slot region and pushes the top operand, or `Unit`, for the caller |
| `CallFrames.FiberStack.EnterFrame` | runtime/src/interp/mod.rs:1343-1366 | Grows or shrinks the shared stack in place as the model says, or refuses with the model's trap and no change |
| `CallFrames.FiberStack.Call` | runtime/src/interp/mod.rs:1466-1477 | Enters the callee and suspends the caller under the depth cap |
| `CallFrames.FiberStack.CallClosure` | runtime/src/interp/mod.rs:1721-1736 | Replaces the closure in place by its captures, then calls |
| `CallFrames.FiberStack.LoadLocal` | runtime/src/interp/mod.rs:1511-1516 | Pushes the slot or reports it out of range |
| `CallFrames.FiberStack.StoreLocal` | runtime/src/interp/mod.rs:1517-1522 | Pops into the slot or reports underflow or range |
| `CallFrames.FiberStack.Return` | runtime/src/interp/mod.rs:1921-1946 | Truncates to the base and hands the result to the caller or out |
| `ArithLaws.IntegerLaw` | runtime/src/interp/mod.rs:1536-1547 | Addition, subtraction and multiplication take their two operands off the stack and push the one `i64` that differs from the exact result by a multiple of 2^64 |
| `ArithLaws.DivisionLaw` | runtime/src/interp/mod.rs:1548-1561 | Division and remainder by zero trap; otherwise they push a quotient and a remainder that recombine to the dividend, the remainder smaller than the divisor and of the dividend's sign; the one quotient out of range wraps |
| `ArithLaws.NegationLaw` | runtime/src/interp/mod.rs:1562-1583 | Negation wraps only for the least integer; the complement plus the operand is minus one |
| `ArithLaws.BitwiseLaw` | runtime/src/interp/mod.rs:1568-1579 | `and`, `or` and `xor` push the integer whose every bit combines the operands' bits |
| `ArithLaws.BitsDetermine` | runtime/src/interp/mod.rs:1568-1579 | Distinct integers differ in a bit, so the bits determine the result |
| `ArithLaws.ShiftLaw` | runtime/src/interp/mod.rs:1584-1597 | Shift amounts count modulo 64; a left shift multiplies by the power of two and wraps, right shifts round the quotient down, of the signed operand or of its unsigned reading |
| `ArithLaws.ComparisonLaw` | runtime/src/interp/mod.rs:1622-1627 | Comparisons push the truth of the order of the operands as they were pushed |
| `ArithLaws.OperandKinds` | runtime/src/interp/mod.rs:1536-1636 | A binary instruction faults on operands of the wrong kind or a zero divisor and on nothing else |
| `ArithLaws.WrapIsCongruent` | runtime/src/interp/mod.rs:1536-1547 | Wrapping yields the one `i64` congruent to its argument modulo 2^64 |
| `ArithLaws.DivisionTruncates` | runtime/src/interp/mod.rs:1548-1561 | Division truncates toward zero and the remainder takes the dividend's sign |
| `ArithLaws.DivModRecombine` | runtime/src/interp/mod.rs:1548-1561 | Quotient and remainder recombine to the dividend, the overflowing quotient included |
| `ArithLaws.ArithmeticUndone` | runtime/src/interp/mod.rs:1536-1583 | Subtraction undoes addition; negation and complement undo themselves |
| `InstrLaws.BuildReadsBack` | runtime/src/interp/mod.rs:1778-1897 | What a constructor builds is new and reads back its operands; older objects read as before |
| `InstrLaws.StoreReadsBack` | runtime/src/interp/mod.rs:1816-1870 | A field or element store is read back at its own place and nowhere else |
| `InstrLaws.GlobalReadsBack` | runtime/src/interp/mod.rs:1524-1533 | A global reads back what was last stored in it |
| `InstrLaws.InternedOnce` | runtime/src/interp/mod.rs:1502-1508 | A string constant is one object however often it is pushed |
| `InstrLaws.QueriesForetell` | runtime/src/interp/natives.rs:1690-1704 | `is_done` and channel readiness say exactly whether join and receive would block |
| `InstrLaws.LocalReadsBack` | runtime/src/interp/mod.rs:1511-1522 | A local reads back what was last stored in it, and a store moves no other slot |
| `InstrLaws.CallDepth` | runtime/src/interp/mod.rs:1466-1477 | A call overflows exactly with a million callers suspended |
| `InstrLaws.VirtualDispatch` | runtime/src/interp/mod.rs:1737-1776 | A virtual call is the direct call of the first dispatch row that implements the selector for the receiver's type, a struct's id or an enum's id offset by the base; it falls back exactly when there is none |
| `InstrLaws.KindsDispatchApart` | runtime/src/interp/mod.rs:2260-2281 | No row serves both a struct and an enum with ids below the base |
| `RunFibers.StartRuns` | runtime/src/interp/mod.rs:1196-1198 | A run starts exactly when the function exists and takes that many arguments, at its first instruction with the arguments in its first locals and `Unit` in the others |
| `RunFibers.FiberStory` | runtime/src/interp/mod.rs:599-625 | Whatever else a run does, a spawned fiber keeps its closure until the driver first schedules it with that closure, and the result it has is what its own code returned after that |
| `RunFibers.JoinOfSpawn` | runtime/src/interp/natives.rs:1667-1686 | Joining the number a spawn answered yields what that closure's code returned, or waits |
| `RunFibers.SpawnStarts` | runtime/src/interp/natives.rs:1667-1672 | A spawn answers the new fiber's number: an unstarted fiber of that closure, last in the queue, and nothing else changes |
| `RunFibers.JoinAnswers` | runtime/src/interp/natives.rs:1674-1686 | A join of a finished fiber answers its result; any other join parks the fiber at the call |
| `RunFibers.YieldRequeues` | runtime/src/interp/natives.rs:1734-1740 | A yield parks the fiber at the end of the queue with `Unit` as its answer |
| `RunFibers.SelectWaits` | runtime/src/interp/natives.rs:1706-1732 | A select waits on the channels, on exactly the sockets listed and, unless its limit is negative, on the clock |
| `RunFibers.ForeignParks` | runtime/src/interp/mod.rs:1690-1718 | A sleeper is listed for its deadline and a syscall goes out to the workers, both with the result on the stack; a fiber that waits for a socket will call again |
| `RunFibers.ForeignCloses` | runtime/src/interp/mod.rs:528-545 | A native that closes sockets is answered, and makes ready exactly the fibers that wait on one of them |
| `RunFibers.RunningStep` | runtime/src/interp/mod.rs:1921-1946 | A running fiber goes on running, parks, or finishes with the value its last frame returns |
| `RunFibers.MainReturns` | runtime/src/interp/mod.rs:1199-1207 | A run ends with a value exactly when its main fiber returns that value from its last frame |
| `RunFibers.ClosedSocketsWake` | runtime/src/interp/mod.rs:528-545 | Closing sockets makes ready exactly the fibers that wait on one of them |
| `RunFibers.TickWakes` | runtime/src/interp/mod.rs:718-737 | A tick makes ready exactly the fibers with a deadline that has come and keeps the other deadlines |
| `RunFibers.SocketWakes` | runtime/src/interp/mod.rs:537-545 | Readiness of a socket makes ready exactly the fibers that wait on it |
| `RunFibers.ProgressWakes` | runtime/src/interp/mod.rs:520-526 | All and only the blocked fibers get another try |
| `RunFibers.DriverWatches` | runtime/src/interp/mod.rs:1228-1285 | While the driver waits, every socket, worker and deadline a fiber waits for is being watched, and there is one |
| `ChannelLaws.CapacityHolds` | runtime/src/interp/natives.rs:1742-1748 | A channel made with capacity n takes exactly n values, one if n is less, before a send waits |
| `ChannelLaws.ClosedDrains` | runtime/src/interp/mod.rs:577-597 | From the moment a channel is closed, what is received from it followed by what it still holds is what it held then |
| `ChannelLaws.ClosedAnswers` | runtime/src/interp/natives.rs:1752-1784 | For ever after closing, a send fails and a receive never waits: the oldest value left, then `None` |
| `ChannelLaws.CloseWakes` | runtime/src/interp/mod.rs:593-597 | Closing closes that channel only, keeps what it holds and gives every waiter another try |
| `SchedulerInvariant.ReadyEffect` | runtime/src/interp/mod.rs:508-518 | Waking fibers only raises queued flags and appends each newly queued fiber once |
| `SchedulerInvariant.WakeAllKeeps` | runtime/src/interp/mod.rs:520-526 | Waking all blocked fibers keeps the invariant and empties `blocked` |
| `SchedulerInvariant.WakePollKeeps` | runtime/src/interp/mod.rs:537-545 | Waking a socket's waiters keeps the invariant, multi-source parks included |
| `SchedulerInvariant.WakeTimersKeeps` | runtime/src/interp/mod.rs:718-737 | Waking due timers keeps the invariant |
| `SchedulerInvariant.CompleteKeeps` | runtime/src/interp/mod.rs:619-625 | Finishing the running fiber keeps the invariant and wakes every blocked one |
| `SchedulerInvariant.SpawnKeeps` | runtime/src/interp/mod.rs:599-610 | A spawned fiber is unstarted and queued, and nothing else changes |
| `SchedulerInvariant.ParkKeeps` | runtime/src/interp/mod.rs:629-657 | Each park request routes the running fiber to the one place, or the named sources, its wake-up will look at |
| `SchedulerInvariant.ParkRoutes` | runtime/src/interp/mod.rs:629-657 | Each park request puts the fiber on exactly the lists it names, with the deadline and sockets given, and moves no other fiber |
| `SchedulerInvariant.DueExact` | runtime/src/interp/mod.rs:718-737 | Exactly the timers whose deadline has come are due, and the others stay armed |
| `SchedulerInvariant.ParkIoKeeps` | runtime/src/interp/mod.rs:659-668 | A fiber parked on a worker is in no list and counted once |
| `SchedulerInvariant.DeliverReady` | runtime/src/interp/mod.rs:689-709 | A completion finds its fiber suspended, counted, listed nowhere and holding a placeholder |
| `SchedulerInvariant.DeliverKeeps` | runtime/src/interp/mod.rs:698-709 | Delivery keeps the invariant |
| `SchedulerInvariant.UnlistEffect` | runtime/src/interp/mod.rs:670-686 | Sweeping the recorded sources takes a fiber off every wait list and moves no other |
| `SchedulerInvariant.DequeueKeeps` | runtime/src/interp/mod.rs:1304-1335 | The head of the queue is unstarted or suspended without a pending finish, and once running is in no list |
| `Schedulers.Scheduler.constructor` | runtime/src/interp/mod.rs:496-506 | An empty scheduler |
| `Schedulers.Scheduler.Wake` | runtime/src/interp/mod.rs:508-518 | Queues a fiber once |
| `Schedulers.Scheduler.WakeEach` | runtime/src/interp/mod.rs:508-518 | Queues each of a list |
| `Schedulers.Scheduler.WakeBlocked` | runtime/src/interp/mod.rs:520-526 | Drains and queues `blocked` |
| `Schedulers.Scheduler.WakeHandle` | runtime/src/interp/mod.rs:537-545 | Drains one socket's waiters |
| `Schedulers.Scheduler.ChannelNew` | runtime/src/interp/mod.rs:547-557 | Adds an open empty channel of capacity at least one |
| `Schedulers.Scheduler.ChanSend` | runtime/src/interp/mod.rs:559-575 | Buffers and wakes, or reports full or closed and changes nothing |
| `Schedulers.Scheduler.ChanReceive` | runtime/src/interp/mod.rs:577-591 | Takes the oldest value and wakes, or reports empty or drained and changes nothing |
| `Schedulers.Scheduler.ChanClose` | runtime/src/interp/mod.rs:593-597 | Closes and wakes |
| `Schedulers.Scheduler.Spawn` | runtime/src/interp/mod.rs:599-610 | Adds a queued unstarted fiber |
| `Schedulers.Scheduler.Complete` | runtime/src/interp/mod.rs:619-625 | Records the result and wakes |
| `Schedulers.Scheduler.Park` | runtime/src/interp/mod.rs:629-657 | Saves the stacks and lists the fiber by its request |
| `Schedulers.Scheduler.ParkAwait` | runtime/src/interp/mod.rs:659-668 | Saves the stacks, marks the finish pending and counts it |
| `Schedulers.Scheduler.Unlist` | runtime/src/interp/mod.rs:670-686 | Removes a fiber from every list its multi-source park named and drops emptied socket entries |
| `Schedulers.Scheduler.Next` | runtime/src/interp/mod.rs:1304-1315 | Pops the head of the queue, unlists it and marks it running |
| `Schedulers.Scheduler.Deliver` | runtime/src/interp/mod.rs:698-709 | Overwrites the placeholder and queues the fiber |
| `Schedulers.Scheduler.EarliestDeadline` | runtime/src/interp/mod.rs:712-716 | The least deadline among the timers, or none |
| `Schedulers.Scheduler.WakeDueTimers` | runtime/src/interp/mod.rs:718-737 | Wakes exactly the fibers whose deadline has passed, in order, and keeps the others |
| `Heaps.CollectionExact` | runtime/src/heap.rs:336-389 | After a collection a slot is occupied iff it was occupied and reachable from roots, interned strings and globals; survivors keep handle and contents; the free list is duplicate-free and exactly the empty slots; the byte account is the survivors' total and the threshold at least twice it and at least the floor |
| `Heaps.CollectionKeepsHandles` | runtime/src/heap.rs:336-389 | What survives is closed under children, and every live root stays live |
| `Heaps.Heap.Collect` | runtime/src/heap.rs:336-389 | The mark-sweep in place computes exactly the reachability-based collection, on any graph, cyclic ones included |
| `Heaps.Heap.Trace` | runtime/src/heap.rs:364-370 | The worklist loop ends with exactly the reachable slots marked and their bytes totalled |
| `Heaps.Heap.TraceOne` | runtime/src/heap.rs:365-370 | One trip keeps the tri-colour invariant and finishes one new slot |
| `Heaps.Heap.MarkRoots` | runtime/src/heap.rs:349-363 | Roots, interned strings and globals are marked and queued, nothing else |
| `Heaps.Heap.Mark` | runtime/src/heap.rs:407-414 | Marks a handle and queues it only the first time |
| `Heaps.Heap.Sweep` | runtime/src/heap.rs:372-380 | Frees exactly the unmarked occupied slots onto the free list |
| `Heaps.AllocCorrect` | runtime/src/heap.rs:190-214 | Allocation hands out an empty slot, disturbs no occupied one and keeps the free list exact |
| `Heaps.AllocKeepsClosed` | runtime/src/heap.rs:190-214 | Allocating an object with live children keeps every child of every object live |
| `Heaps.Heap.Alloc` | runtime/src/heap.rs:190-214 | Charges the bytes, arms collection at threshold or ceiling, reuses the last freed slot or grows the slab |
| `Heaps.Heap.InternStr` | runtime/src/heap.rs:175-184 | One permanent object per distinct string |
| `Heaps.Heap.SetGlobals` | runtime/src/heap.rs:143-150 | Resets the global slots |
| `Heaps.Heap.GlobalSet` | runtime/src/heap.rs:160-168 | Writes one global or reports the index |
| `Heaps.Heap.TakeObj` | runtime/src/heap.rs:247-254 | Moves the object out, leaving its slot empty |
| `Heaps.Heap.RestoreObj` | runtime/src/heap.rs:256-263 | Puts the object back |
| `MapNatives.MapSet` | runtime/src/interp/natives.rs:2139-2152 | Taking a map, inserting and restoring it changes exactly that slot to the updated entries, refuses anything else unchanged, and is what the machine asks of code outside it |
| `MapNatives.MapRemove` | runtime/src/interp/natives.rs:941-952 | Taking a map, removing and restoring it drops the entry in order and answers a live value |
| `Heaps.NextThreshold` | runtime/src/heap.rs:396-404 | The threshold is the floor, twice or four times the survivors, never below either bound, and four times exactly when more than three quarters of the account survived |
| `Heaps.ClosedSetCovers` | runtime/src/value.rs:157-169 | A set that holds the roots and is closed under the trace relation holds everything reachable |
| `GcCost.HeapMarkingIsAmortised` | runtime/src/heap.rs:336-389 | From an empty account, over any history of allocations, uncharged mutation and due collections of a heap whose survivors stay within half the ceiling, all collections but the last mark no more bytes than were allocated |
| `GcCost.HistoryAccount` | runtime/src/heap.rs:190-204 | A heap's account is at every point of its history that of its account events, with each collection's live bytes the total it leaves standing |
| `GcCost.MarkingIsAmortised` | runtime/src/heap.rs:190-201 | The same bound over account events alone |
| `GcCost.CostInvariant` | runtime/src/heap.rs:364-388 | Since the last collection the account grew by what was allocated, and a collection is due only after as many bytes as survived the last one |
| `GcCost.HeapCharges` | runtime/src/heap.rs:190-204 | Allocation and collection change the account as the cost model says |
| `GcCost.HalfCeilingMatters` | runtime/src/heap.rs:190-201 | With live data above half the ceiling the bound fails: for any object size, n collections mark nine objects each while ten plus n objects are allocated |
| `HashMaps.RunOps` | runtime/src/map.rs:86-135 | Every sequence of insert, get, contains, remove and clear gives the answers and the entry order of an association list with distinct keys, on both sides of the threshold and across rebuilds, as long as no operation starts from more entries than the index can number |
| `HashMaps.HashMap.constructor` | runtime/src/map.rs:36-44 | An empty map is valid for any lawful key comparison and hash |
| `HashMaps.HashMap.Find` | runtime/src/map.rs:148-171 | Finds what a linear scan finds |
| `HashMaps.HashMap.Probe` | runtime/src/map.rs:157-170 | The probe loop stops, and a stop at an empty slot proves absence |
| `HashMaps.HashMap.Get` | runtime/src/map.rs:86-89 | The value of an equal key, if any |
| `HashMaps.HashMap.Contains` | runtime/src/map.rs:91-93 | Whether an equal key is present |
| `HashMaps.HashMap.Insert` | runtime/src/map.rs:97-115 | Updates in place keeping position, or appends, always; the index stays a power-of-two table under three quarters full up to 2^31 entries |
| `HashMaps.HashMap.Remove` | runtime/src/map.rs:118-128 | Removes the entry, keeps the order of the rest and answers its value |
| `HashMaps.HashMap.Clear` | runtime/src/map.rs:131-135 | Empties the map |
| `HashMaps.HashMap.IndexInsert` | runtime/src/map.rs:180-187 | Places the entry in the first empty slot from its home, always finding one |
| `HashMaps.HashMap.RebuildIndex` | runtime/src/map.rs:191-197 | Builds a table holding every entry exactly once with no gap before it |
| `HashMaps.HashMap.IndexLast` | runtime/src/map.rs:105-114 | Builds, grows or extends the index after an append |
| `HashMaps.EntryNumberCast` | runtime/src/map.rs:180-187 | The index's `i32` keeps a vector's entry number if and only if it is below 2^31 |
| `HashMaps.LookupPut` | runtime/src/map.rs:97-104 | Reading after a write: the written key's class reads the value, other keys are untouched, keys stay distinct |
| `HashMaps.LookupDrop` | runtime/src/map.rs:118-121 | Reading after a removal: the key's class is gone, other keys are untouched |
| `HashMaps.ProbeMissed` | runtime/src/map.rs:156-170 | If the probe reaches an empty slot without a hit, no entry has an equal key |
| `HashMaps.EmptySlotExists` | runtime/src/map.rs:173-175 | A table under its load bound has an empty slot, so probing ends |
| `HashMaps.TableExtend` | runtime/src/map.rs:180-187 | Filling the first empty slot from an entry's home keeps the table's invariant |
| `HashMaps.MaskIsModulo` | runtime/src/map.rs:157-158 | Masking with a power of two less one is the remainder |
| `HashMaps.CapacityOk` | runtime/src/map.rs:202-205 | The capacity chosen is a power of two with the load under three quarters |
| `Equality.EqualHashesAlike` | runtime/src/map.rs:211-304 | Structurally equal values hash alike from any accumulator, through nested lists, maps, structs, enums and closures, with the two zeros and the same-handle shortcut |
| `Equality.EqSymmetric` | runtime/src/heap.rs:276-295 | Structural equality is symmetric |
| `Equality.EqTransitive` | runtime/src/heap.rs:276-295 | Structural equality is transitive |
| `Equality.EqReflexive` | runtime/src/heap.rs:276-295 | A value equals itself unless it is a NaN |
| `Equality.CopiesEqual` | runtime/src/heap.rs:276-295 | A copy in another slot is equal if and only if none of its direct contents is a NaN |
| `Equality.HeapKeysLawful` | runtime/src/heap.rs:276-295 | Structural equality and the content hash satisfy the law the hash map relies on |
| `Equality.NewValueMap` | runtime/src/map.rs:58-66 | A runtime map starts valid over structural keys |
| `ValueTrees.EqualIsSameTree` | runtime/src/heap.rs:276-295 | Equal values unfold to the same tree, and a tree without NaN is shared only by equal values |
| `ValueTrees.ObjsEqualExactly` | runtime/src/heap.rs:276-295 | Objects are equal exactly when they agree without their children and their children are equal in order |
| `ValueTrees.SeqEqualExactly` | runtime/src/heap.rs:276-295 | Sequences of values are equal exactly when they are as long and equal at every position |
| `ValueTrees.NanBreaksCopies` | runtime/src/heap.rs:276-295 | An object that directly holds a NaN equals itself and no other object |
| `Bytecode.DispatchIsFirstMatch` | runtime/src/module.rs:255-260 | For a type id, the indexed lookup finds what a flat first-match scan of the table finds; which id a receiver has and what is called are stated by `InstrLaws.VirtualDispatch` |
| `Bytecode.SetDispatch` | runtime/src/module.rs:210-217 | The loop builds the index of the rows: each type id to its rows in table order, no other id |
| `Bytecode.IndexUnique` | runtime/src/module.rs:210-217 | Any index in step with the rows is the one built from them |
| `Wire.UvarintRoundTrip` | runtime/src/serialize.rs:41-53 | Every `u64` is read back from its unsigned LEB128 form, whatever follows, consuming exactly it |
| `Wire.IvarintRoundTrip` | runtime/src/serialize.rs:56-70 | Every `i64`, both extremes included, is read back from its signed LEB128 form, whatever follows |
| `Wire.UvarintAtMostTen` | runtime/src/serialize.rs:41-53 | An unsigned varint has one to ten bytes |
| `Wire.UvarintShortest` | runtime/src/serialize.rs:41-53 | The unsigned form is the shortest: one byte fewer could not hold the number |
| `Wire.IvarintAtMostTen` | runtime/src/serialize.rs:56-70 | A signed varint has one to ten bytes |
| `Wire.UvarintReaderTotal` | runtime/src/serialize.rs:156-171 | On every input the unsigned reader overflows, runs out, or yields the sum of the seven-bit groups modulo 2^64 right after the first final byte, with the exact condition for each |
| `Wire.IvarintReaderTotal` | runtime/src/serialize.rs:173-192 | On every input, canonical or not, the signed reader fails exactly when the unsigned one does and otherwise yields the `i64` congruent to the signed sum of the groups modulo 2^64 |
| `Wire.FixedRoundTrip` | runtime/src/serialize.rs:27-33 | Fixed little-endian fields are read back |
| `Wire.BytesRoundTrip` | runtime/src/serialize.rs:73-76 | Length-prefixed bytes are read back |
| `Wire.StrRoundTrip` | runtime/src/serialize.rs:78-81 | Length-prefixed text is read back exactly when it is UTF-8, and refused otherwise |
| `Wire.ManyRoundTrip` | runtime/src/codec.rs:505-530 | If each item is read back whatever follows it, a counted run of items is |
| `Utf8.Utf8Exactly` | runtime/src/serialize.rs:199-204 | The bytes accepted as a string are exactly the encodings of sequences of Unicode scalar values |
| `Utf8.ScalarRecognised` | runtime/src/serialize.rs:199-204 | An encoded scalar value is recognised whole, whatever follows |
| `Serialize.Writer.constructor` | runtime/src/serialize.rs:14-16 | Starts empty |
| `Serialize.Writer.WriteU8` | runtime/src/serialize.rs:23-25 | Appends one byte |
| `Serialize.Writer.WriteLe` | runtime/src/serialize.rs:27-33 | Appends a fixed little-endian field |
| `Serialize.Writer.WriteRaw` | runtime/src/serialize.rs:36-38 | Appends the bytes |
| `Serialize.Writer.WriteUvarint` | runtime/src/serialize.rs:41-53 | The loop appends the unsigned LEB128 form |
| `Serialize.Writer.WriteIvarint` | runtime/src/serialize.rs:56-70 | The loop appends the signed LEB128 form |
| `Serialize.Writer.WriteBytes` | runtime/src/serialize.rs:73-81 | Appends length and data |
| `Serialize.Reader.constructor` | runtime/src/serialize.rs:112-114 | Starts at the front |
| `Serialize.Reader.IsEmpty` | runtime/src/serialize.rs:121-123 | Whether all is read |
| `Serialize.Reader.ReadRaw` | runtime/src/serialize.rs:126-139 | Exactly n bytes, or end of input with the position kept |
| `Serialize.Reader.ReadU8` | runtime/src/serialize.rs:141-143 | One byte or end of input |
| `Serialize.Reader.ReadLe` | runtime/src/serialize.rs:145-154 | A fixed little-endian field or end of input |
| `Serialize.Reader.ReadUvarint` | runtime/src/serialize.rs:156-171 | The loop agrees with the format on every input, errors included |
| `Serialize.Reader.ReadIvarint` | runtime/src/serialize.rs:173-192 | The loop agrees with the format on every input, sign extension and errors included |
| `Serialize.Reader.ReadBytes` | runtime/src/serialize.rs:194-197 | Length-prefixed bytes, or the first error |
| `Serialize.Reader.ReadStr` | runtime/src/serialize.rs:199-204 | Length-prefixed text, or the first error, or not UTF-8 |
| `ModuleRoundTrip.ModuleRoundTrip` | runtime/src/codec.rs:185-403 | Decoding an encoded module gives the module with its entry points resolved by name and its field counts taken from its field names |
| `ModuleRoundTrip.ModuleRoundTripExactly` | runtime/src/codec.rs:275-280 | The round trip is the identity if and only if entry and init are set or no function has their name, and every type has no field names or as many as its field count |
| `ModuleRoundTrip.LookupsSucceed` | runtime/src/codec.rs:532-675 | Every pool lookup of the second pass succeeds |
| `CodecRoundTrip.PoolExact` | runtime/src/codec.rs:185-223 | Each distinct string the module refers to is pooled once, and nothing else is |
| `CodecRoundTrip.InstrRoundTrip` | runtime/src/codec.rs:532-785 | Each of the 63 instructions is read back from its encoding followed by any bytes, consuming exactly its own |
| `CodecRoundTrip.FunctionRoundTrip` | runtime/src/codec.rs:511-530 | A function body is read back, its name apart |
| `CodecRoundTrip.TypeRoundTrip` | runtime/src/codec.rs:231-243 | A type is read back with its field count taken from its names |
| `CodecRoundTrip.EnumRoundTrip` | runtime/src/codec.rs:245-256 | An enum table row is read back |
| `CodecRoundTrip.RowRoundTrip` | runtime/src/codec.rs:282-289 | A dispatch row is read back |
| `CodecRoundTrip.SectionsRoundTrip` | runtime/src/codec.rs:505-509 | Framed sections are read back one by one to the end |
| `CodecRoundTrip.SectionOrderIrrelevant` | runtime/src/codec.rs:330-402 | Permuting sections without repeated known ids gives the same module or the same error |
| `CodecRoundTrip.UnknownSectionsIgnored` | runtime/src/codec.rs:330-402 | Sections with unknown ids and any payload, anywhere, change nothing |
| `CodecRoundTrip.CollectSelects` | runtime/src/codec.rs:338-356 | The section loop keeps the last payload of each known id |
| `Encoder.EncodeModule` | runtime/src/codec.rs:185-317 | The two-pass encoder writes exactly the format of the module |
| `Encoder.StringPool.constructor` | runtime/src/codec.rs:94-101 | An empty pool |
| `Encoder.StringPool.Intern` | runtime/src/codec.rs:103-114 | Returns the index of an equal string or appends it; strings stay distinct and the index exact |
| `Encoder.StringPool.At` | runtime/src/codec.rs:547-550 | The index of a string interned earlier is its position |
| `Encoder.CollectStrings` | runtime/src/codec.rs:185-223 | The first pass interns every string the sections refer to, in order of first use |
| `Encoder.EncodeInstr` | runtime/src/codec.rs:532-675 | Writes the instruction's format |
| `Encoder.EncodeFunction` | runtime/src/codec.rs:511-518 | Writes the function's format |
| `Encoder.EncodeTypes` | runtime/src/codec.rs:231-243 | Writes the types payload |
| `Encoder.EncodeEnums` | runtime/src/codec.rs:245-256 | Writes the enums payload |
| `Encoder.EncodeRows` | runtime/src/codec.rs:282-289 | Writes the dispatch payload |
| `Encoder.EncodeEntry` | runtime/src/codec.rs:273-280 | Resolves entry points by first name match and writes them, or nothing when there is neither |
| `Encoder.FunctionIndex` | runtime/src/module.rs:230-232 | The first function of that name, or that there is none |
| `Encoder.WriteSection` | runtime/src/codec.rs:505-509 | Writes id, length and payload |
| `Decoder.DecodeModule` | runtime/src/codec.rs:320-403 | On every input the decoder gives the module or the error the format says |
| `Decoder.CollectSections` | runtime/src/codec.rs:330-356 | The section loop collects the last payload of each known id, or stops at the first framing error |
| `Decoder.DecodeInstr` | runtime/src/codec.rs:677-785 | Agrees with the format on every input: operands cut to their widths, unknown opcodes, natives and pool indices refused |
| `Decoder.DecodeNative` | runtime/src/codec.rs:735-744 | Binds a native by name, or reports it unknown |
| `Decoder.DecodeFunction` | runtime/src/codec.rs:520-530 | Agrees with the format on every input |
| `Decoder.DecodeTypes` | runtime/src/codec.rs:437-471 | Agrees with the format on every input, both versions; that version 2 keeps names and counts is `LegacyModules.OldModuleRoundTrip` |
| `Decoder.DecodeEnums` | runtime/src/codec.rs:473-493 | Agrees with the format on every input |
| `Decoder.DecodeDispatch` | runtime/src/codec.rs:420-435 | Agrees with the format on every input |
| `Decoder.DecodeStrings` | runtime/src/codec.rs:495-503 | Agrees with the format on every input |
| `Decoder.AssignNames` | runtime/src/codec.rs:376-384 | Each function takes its symbol, or a placeholder once the symbols run out |
| `LegacyModules.OldModuleRoundTrip` | runtime/src/codec.rs:437-471 | A version 2 file decodes to the module it was written for: every type keeps its name and field count and has no field names, all else is as in a version 3 file |
| `LegacyModules.StrippedDecodes` | runtime/src/codec.rs:376-384 | Any file that decodes still does without its symbols, to the same module with its functions called by their positions |
| `LegacyModules.PlaceholdersDiffer` | runtime/src/codec.rs:376-384 | A placeholder is "fn#" and the decimal position, different for different positions |
| `Reencoding.DecodedReencodes` | runtime/src/codec.rs:185-403 | Whatever bytes a module was decoded from, within the encoder's casts it can be encoded again and decodes to itself with entry points resolved and field counts settled, and once more changes nothing |
| `Reencoding.InstrRead` | runtime/src/codec.rs:677-785 | Every instruction the decoder yields came from its own opcode, with pooled strings and a known native |
| `Reencoding.OpcodeRefused` | runtime/src/codec.rs:677-785 | A first byte that is no opcode is refused by name |
| `Reencoding.HeaderRefused` | runtime/src/codec.rs:320-329 | Input that does not start with the magic and version 2 or 3 is refused by the first thing wrong with it |
| `Quoting.UnquoteReadsBack` | runtime/src/interp/mod.rs:2173-2199 | A left-to-right reader of the escape set recovers every string and stops at the closing quote |
| `Quoting.QuotedInjective` | runtime/src/interp/mod.rs:2173-2199 | Different strings are quoted differently, whatever follows them |
| `Quoting.QuoteReadsBack` | runtime/src/interp/mod.rs:2169-2199 | Reading a quoted string as the language does gives the string back and stops at its closing quote if and only if no NUL in it is followed by a digit and an empty literal is not followed by a third quote |
| `Quoting.NotAlwaysALiteral` | runtime/src/interp/mod.rs:2169-2173 | The claim that the result is always a valid literal is false: NUL then `1` is rejected |
| `Quoting.BodyInert` | runtime/src/interp/mod.rs:2178-2183 | Inside the quotes no quote is bare and no interpolation opens |
| `Quoting.QuoteStr` | runtime/src/interp/mod.rs:2173-2199 | The loop writes each character's escape in order between two quotes |
| `Quoting.BodyScans` | pkgs/cli/lexer/lexer.thera:390-417 | The lexer's scan of the quoted body captures the string with backslashes and escaped dollars re-escaped, or fails exactly on a NUL before a digit |
| `Quoting.SplitCaptured` | pkgs/cli/parser/parser.thera:2710-2725 | The parser's splitter turns the captured value back into the string, with no interpolation |

## Left out

- `run_loop` and `drive` as loops: they need not terminate, so they are transitions of `Machine.Step`, with frames and heap as values; the update in place is modelled in `CallFrames`, `Schedulers.Scheduler` and `Heaps.Heap`.
- `virtual_fallback`: what user code nested in it does is a list of native calls with heap effects between them; the nested frames and their instructions are not modelled one by one.
- Which of two traps is reported first when malformed bytecode both underflows and mistypes an operand.
- Natives other than the fiber, channel and select ones: their effect on heap, result and park is an oracle.
- The select loop itself is library code; a multi-source park is modelled, that all its sources were probed just before is not.
- Eventual waking: timers, sockets and workers are looked at only when nothing is ready, so no progress is claimed while other fibers keep yielding.
- Worker threads, polling, clocks, files, processes, regular expressions, digests, TLS, the profiler, the disassembler, the bytecode builder and the command line.
- HashMaps.HashMap.Insert: past 2^31 entries only the entry list is promised, since the `i32` of the index then loses entry numbers (`HashMaps.EntryNumberCast`) and the source's own lookups go out of bounds.
- ModuleRoundTrip.ModuleRoundTrip: at most 2^32 pooled strings and no entry index of 2^32 - 1, since the encoder casts to `u32`; lengths fit a 64-bit `usize`.
- Slab handles of 2^32 and more: the cast to `u32` is not modelled.
- Equality.EqualHashesAlike: the hash accumulator is passed as a value rather than updated, and the keys' reachable heap must be acyclic, since the source recurses without end otherwise.
- Heaps.Heap.Alloc: an object's byte size depends on allocator capacities and is an input; growth by mutation is not charged, as in the source.
- Decoder.DecodeModule: the up-front `Vec::with_capacity` of a count read from the input, which can abort, is not modelled.
- Wire.StrRoundTrip: UTF-8 validity is the grammar in section 4 of RFC 3629 rather than the library routine; `Utf8.Utf8Exactly` proves it against section 3.
- Reencoding.DecodedReencodes: only for modules within the encoder's own 32-bit casts of pool and entry indices.
- Floating-point results: which operation gets which operands is stated, not the value.
- The start of a run is `Vm::run` with its arguments live; the separate init run, whose roots do not include the argument list allocated before it, is not.
- Quoting.QuoteReadsBack: a literal that opens an interpolation or a text block counts as not read; neither is parsed further.
