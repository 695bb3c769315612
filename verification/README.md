# Casca log: a verified model

Casca log is a logging library in C. This project models its concurrent log path and the text and data
structures under it, and proves what they promise.

- **Epoch-based reclamation** (`Ebr.dfy`, `EbrTheorems.dfy`, `EbrProgress.dfy`, `EbrLimits.dfy`) and the
  **lock-free queue** on it (`LockFreeQueue.dfy`, `LockFreeQueueProof.dfy`, `LockFreeQueueTheorems.dfy`,
  `LockFreeQueueMemory.dfy`, `LockFreeQueueReclaim.dfy`, `LockFreeQueueProgress.dfy`, `LockFreeQueueLimits.dfy`):
  step machines with a program counter for every thread. One step is one atomic load, store or exchange, except for
  the merged steps listed below; any thread may take the next one. Runs are arbitrary, and so is the number of
  threads.
- **MPSC queue** (`Mpsc.dfy`): producers exchange the tail first and link later; one consumer.
- **Async dispatcher** (`Dispatch.dfy`, `DispatchTheorems.dfy`, `DispatchProgress.dfy`, `DispatchClose.dfy`): loggers, the worker and the
  thread that sets the context up and destroys it, around the MPSC queue, a counting semaphore and the read-write
  lock.
- **Recorders** (`Recorders.dfy`): what one item causes, the direct dispatcher's loop and the worker's loop with
  its per-slot cache, both as classes against one specification.
- **Hash map** (`HashMap.dfy`, `HashMapIterator.dfy`): linked entries behind an array of buckets, with
  move-to-front, doubling, halving and the rollback of a rehash that runs out of memory.
- **Buffer pool** (`BufferPool.dfy`): the linked free list, growth, threshold-driven shrinking and the two-phase
  finalization; each call is atomic.
- **Text**: the path normalizer (`PathNormalize.dfy`), the format compiler and interpreter (`Interpolator.dfy`),
  the parser and printer of configuration items (`Config.dfy` as functions, `ConfigCode.dfy` as the cursor loops,
  `ConfigGrammar.dfy` with the language the parser reads, `ConfigRoundTrip.dfy` with what the printer writes,
  `ConfigLists.dfy` with numbers and lists as a reader of a document expects them).

The atomics of C11 (section 7.17 of ISO/IEC 9899:2011) are read as sequentially consistent interleavings. An
address names one allocation and is never used twice; that a reused address cannot deceive a compare-exchange is a
theorem of its own, for the queue (`LockFreeQueueMemory.HeadAndTailAreLive` with `NoUseAfterFree`) and for the
reclaimer's lists (`EbrTheorems.ExpectedHeadIsLive`). Fields called auxiliary in the comments, and ghost fields, are
read by no decision of the program. Operations that allocate take `memory`: with it every allocation of the call succeeds,
without it any may be refused.

Some steps of the reclaimer merge accesses of which at most one depends on other threads or is seen by them:
`EnterLoad` loads the epoch and stores it in the handle, where nobody reads it; `EnterCas` checks the handle's own
state and the global state and exchanges the former (its flag lets it go by a global state loaded before the
destruction); `Exit` and `Unregister` are the exchange their loops end with; `RegisterInsert` loads the epoch under
the mutex; `RetireLoadHead` also fills the entry, which is still private; `PollStart` loads and exchanges the global state;
a `PollScan` that meets an active thread also stores the global state. In the queue, `EnqDecide` and `DeqDecide` are
the one load or exchange that follows the local tests; the state of the queue, always running here, is not loaded.

Where the code does not meet the plain statement, its boundary is stated:

- A retirement outside a critical section can be lost (`EbrLimits.RetirementOutsideSectionCanBeLost`): a reachable
  state, beside the accounting theorem for runs that retire inside sections. The grace period counted from the push
  instead of the call is false (`EbrLimits.GraceFromThePushIsFalse`). A retirement that finds no memory has no grace
  period (`EbrLimits.NoMemoryFreesAtOnce`).
- A dequeue whose retirement finds no memory frees its node on the spot. That node can be touched afterwards if and
  only if another thread holds it at that moment (`LockFreeQueueMemory.DroppedNodeCanBeTouchedExactly`), and there
  is such a run (`LockFreeQueueLimits.FreedHeadIsRead`).
- `clog_dispatcher_async_thread_close` can return if and only if its first load finds STOPPING
  (`DispatchClose.CloseReturnsExactly`), and until then the worker can always store CLOSED first
  (`DispatchClose.CloseCanComeTooLate`).
- The normalizer needs one byte more than its result and terminator, except for the root (`PathNormalize.Normalize`).
- A handler that writes nothing ends the interpretation with the code of success, an empty text and no count
  (`Interpolator.EmptyAnswerLosesTheText`); formatting gives direct substitution if and only if there is a text and
  no handler that is reached does that (`Interpolator.FormattingExactly`).
- A printed format parses to itself if and only if no text before a placeholder ends in a backslash
  (`Interpolator.FormatRoundTrip`).
- A printed configuration value is read back if and only if its numbers have 32 bits and its strings neither quote
  nor backslash, at any depth (`ConfigRoundTrip.ValueRoundTripsExactly`); an entry if and only if its key is a name
  and nothing but blanks and a comment is behind it, too (`ConfigRoundTrip.EntryRoundTripsExactly`); entries on lines
  of their own if and only if no string has a line break, too (`ConfigRoundTrip.FileRoundTripsExactly`).
- Digits are summed in 64 bits: 0x10000000000000001 is read as 1 (`ConfigLists.WrapsToOne`). A numeral is read as
  the number it stands for if and only if that is below 2^32, and refused if and only if its low 64 bits are not
  (`ConfigLists.NumeralExactly`).
- In a list the character behind a comma is not looked at, so `[1,2]` is read as a list of 1. A list of printed items
  comes back if and only if there is a blank behind every comma (`ConfigLists.ListsExactly`).
- `clog_buffer_pool_initialize` loses the pool it allocated if its batch fails and the capacity asked for is not
  zero (`BufferPool.Initialize`); after finalization `acquire` hands out buffers of size zero (`BufferPool.Pool.Acquire`).

To check everything: `dafny verify dfyconfig.toml` (Dafny 4.11).

## Model

| member | source | states |
|---|---|---|
| `EbrTheorems.InvHolds` | source/utils/clog_ebr.c:80-268 | Every reachable state: the registry is the set of handles, lists hold what was tagged with their epoch, a section has seen at most one advance, what was freed is out of reach of every section |
| `EbrTheorems.OneAdvancePerSection` | source/utils/clog_ebr.c:151-180 | The epoch advances at most once during any one critical section, however the one-thread-at-a-time scan interleaves with it |
| `EbrTheorems.GracePeriod` | source/utils/clog_ebr.c:182-247 | When a poll frees a pointer, no thread active when its retirement was called is still in that same section |
| `EbrTheorems.WalkedIsOld` | source/utils/clog_ebr.c:217-225 | What a poll is about to free was tagged two advances ago, before every section still open began |
| `EbrTheorems.StalePusherMissesWalkedList` | source/utils/clog_ebr.c:190-226 | A pusher inside its section never targets the list a poll is walking and about to overwrite with zero |
| `EbrTheorems.EveryRetiredPointerIsKeptOnce` | source/utils/clog_ebr.c:182-226 | With retirements inside sections, a pointer whose retirement has been called is at all times in exactly one place: with the one thread that is still retiring it, in one list once, freed once, or freed on the spot; no other pointer is in any; after the teardown each is freed once |
| `EbrTheorems.CalledRetirementIsKept` | source/utils/clog_ebr.c:190-198 | A retirement that has found memory keeps its pointer ever after, however often its exchange fails, and never frees it on the spot |
| `EbrTheorems.TeardownFindsNobody` | source/utils/clog_ebr.c:100-138 | The teardown frees nothing under anybody: no thread is in a section or inside a retirement, no poll is under way, every handle is released |
| `EbrTheorems.TeardownWaitsForAll` | source/utils/clog_ebr.c:107-114 | Every thread registered before the teardown has unregistered before it, and has not entered since |
| `EbrTheorems.TeardownFollowsDestroy` | source/utils/clog_ebr.c:255-268 | The teardown comes only after the call of destroy |
| `EbrLimits.TeardownHappens` | source/utils/clog_ebr.c:116-137 | A run in which the teardown happens and frees a pointer that was retired |
| `EbrProgress.ThreePollsFreeEverything` | source/utils/clog_ebr.c:207-247 | From every reachable state in which nobody is in a section, the steps of three polls, alone, empty the three lists and free each entry once |
| `EbrProgress.ThreePollsFreeTheRetired` | source/utils/clog_ebr.c:207-247 | After them exactly what was retired is freed, and once, given retirements inside sections |
| `EbrLimits.RetirementOutsideSectionCanBeLost` | source/utils/clog_ebr.c:182-226 | A reachable state in which a pointer retired outside a section is in no list and never freed |
| `EbrLimits.GraceFromThePushIsFalse` | source/utils/clog_ebr.c:192-198 | A run in which a thread active at the push of a pointer is still in that section when it is freed |
| `EbrTheorems.ExpectedHeadIsLive` | source/utils/clog_ebr.c:190-198 | With retirements inside sections, the entry whose address a push compares is still in its list, so a reused address cannot deceive the exchange |
| `EbrLimits.NoMemoryFreesAtOnce` | source/utils/clog_ebr.c:186-187 | Without memory the grace period fails: a reachable call at which another thread is active, the pointer freed by that step, the thread still in the same section |
| `LockFreeQueueTheorems.InvHolds` | source/utils/clog_atomic_queue.c:107-194 | The invariant of queue and reclaimer holds in every reachable state, retirements without memory included |
| `LockFreeQueueMemory.NoUseAfterFree` | source/utils/clog_atomic_queue.c:107-194 | In every run, no step follows or compares a node a poll has freed, whatever stale head, tail or next a thread kept across failed exchanges; and one freed for want of memory only if another thread held it then |
| `LockFreeQueueMemory.HeadAndTailAreLive` | source/utils/clog_atomic_queue.c:126-165 | Head and tail are never freed in any way, so that equal addresses are the same node |
| `LockFreeQueueMemory.DroppedNodeCanBeTouchedExactly` | source/utils/clog_ebr.c:186-187 | A node freed on the spot can be touched later if and only if another thread holds it at that moment |
| `LockFreeQueueLimits.FreedHeadIsRead` | source/utils/clog_atomic_queue.c:146-172 | A run in which a dequeue reads through a head that another dequeue has freed for want of memory |
| `LockFreeQueueTheorems.NodesReclaimedOnce` | source/utils/clog_atomic_queue.c:168-172 | Each node handed to the reclaimer is a dequeued one and is listed once or freed once; one freed for want of memory is neither listed nor freed again |
| `LockFreeQueueReclaim.EveryDequeuedNodeIsKeptOnce` | source/utils/clog_atomic_queue.c:165-172 | Each node before head is at all times in exactly one place: with the one thread that dequeued it, with the reclaimer, or freed; a node still queued is in none |
| `LockFreeQueueProgress.NobodyIsBlocked` | source/utils/clog_atomic_queue.c:107-194 | From every reachable state, whatever the others are in the middle of, at most twenty steps of a thread alone complete the operation it is in, given memory for the retirement |
| `LockFreeQueueTheorems.TailLagsByAtMostOne` | source/utils/clog_atomic_queue.c:121-167 | Head never passes tail, tail is at most one node behind the last |
| `LockFreeQueueTheorems.ReplayIsFifo` | source/utils/clog_atomic_queue.c:107-178 | A history the sequential queue accepts dequeues in the order of the enqueues and leaves the rest |
| `LockFreeQueueTheorems.LogIsSequentialHistory` | source/utils/clog_atomic_queue.c:107-178 | At every moment the linearization is a history of the sequential queue ending in the present content |
| `LockFreeQueueTheorems.Linearizable` | source/utils/clog_atomic_queue.c:107-194 | Every operation that returns took effect at exactly one step between call and return, with its own value; not-found took effect when the queue was empty |
| `Mpsc.InvHolds` | source/utils/clog_atomic_mpsc_queue.c:21-75 | Every reachable state: nodes in exchange order, linked except where a producer has exchanged but not linked, freed exactly what lies before head |
| `Mpsc.ConsumesInExchangeOrder` | source/utils/clog_atomic_mpsc_queue.c:44-74 | The values handed out are a prefix of the values in exchange order |
| `Mpsc.FifoPerProducer` | source/utils/clog_atomic_mpsc_queue.c:34-75 | Each producer's values come out in the order it put them in |
| `Mpsc.NoUseAfterFree` | source/utils/clog_atomic_mpsc_queue.c:44-72 | No producer writes, and the consumer does not read or free, a node that has been freed |
| `Mpsc.FreedExactly` | source/utils/clog_atomic_mpsc_queue.c:69-72 | The freed nodes are those before head, but for the one the consumer has just left |
| `Mpsc.NotFoundMeans` | source/utils/clog_atomic_mpsc_queue.c:60-65 | Not-found means empty, or the next producer has exchanged but not linked, and only then |
| `DispatchTheorems.InvHolds` | source/dispatcher/clog_dispatcher_async_thread.c:69-161 | The invariant of loggers, worker and main thread in every reachable state |
| `DispatchTheorems.NoLostWakeup` | source/dispatcher/clog_dispatcher_async_thread.c:77-93 | If the worker is parked on a zero semaphore and an item is queued, some logger is between its exchange and its post |
| `DispatchTheorems.WorkerLeavesAfterEnd` | source/dispatcher/clog_dispatcher_async_thread.c:83-91 | The worker returns only after END and with CLOSED stored |
| `DispatchTheorems.WorkerFindsContextAlive` | source/casca_log_core.c:445-470 | While the worker looks up recorders and releases items the context is running or stopping, as both calls demand, and close has not returned |
| `DispatchTheorems.CallsAreDirect` | source/dispatcher/clog_dispatcher_async_thread.c:30-67 | The calls made so far are those of the direct loop over the items taken in queue order: writes, releases and, right behind exactly the writes that asked for one, flushes |
| `DispatchTheorems.ShutdownDrains` | source/dispatcher/clog_dispatcher_async_thread.c:83-88 | When the worker has left, every item put in before destroy took the write lock was written once to each registered recorder of its leading slots and released once, in order, and flushed where a write asked for it; every item at all if nobody locked later |
| `DispatchTheorems.CloseReturnsAfterTheDrain` | source/dispatcher/clog_dispatcher_async_thread.c:145-161 | Close returns only after the worker has stored CLOSED and left |
| `DispatchProgress.WorkerKeepsUp` | source/dispatcher/clog_dispatcher_async_thread.c:69-93 | From every reachable state the worker's own steps, bounded by the posts and items that wait, lead it to the semaphore or out; if no logger is between exchange and post and the worker has not left, everything queued is then written |
| `DispatchClose.NeverParkedAfterEnd` | source/dispatcher/clog_dispatcher_async_thread.c:136-138 | Once END has been posted the worker is never parked on a zero semaphore |
| `DispatchClose.CloseReturnsExactly` | source/dispatcher/clog_dispatcher_async_thread.c:149-155 | From every state after close's first load some continuation makes it return if and only if that load found STOPPING |
| `DispatchClose.CloseCanComeTooLate` | source/dispatcher/clog_dispatcher_async_thread.c:83-87 | Until that load the worker's own steps lead to CLOSED, from where close never returns |
| `DispatchClose.CloseSpinsForever` | source/dispatcher/clog_dispatcher_async_thread.c:149-155 | A reachable state in which close has not looked yet and can never return |
| `Recorders.OfferWrites` | source/dispatcher/clog_dispatcher_async_thread.c:36-58 | One item is written to exactly the registered recorders of its leading valid slots, in slot order |
| `Recorders.DispatchedMeans` | source/dispatcher/clog_dispatcher_direct.c:22-47 | A sequence of items: each written once to each target in order and released once after that, whatever the writes answer; the recorder is flushed right behind a write if and only if the write asked for it, and nowhere else |
| `Recorders.Context.NotifyDirect` | source/dispatcher/clog_dispatcher_direct.c:17-52 | The direct loop empties the channel and makes exactly the specified calls |
| `Recorders.AsyncWorker.OfferCached` | source/dispatcher/clog_dispatcher_async_thread.c:36-58 | The cached lookup makes the same calls for an item as a lookup each time |
| `Recorders.AsyncWorker.ProcessLog` | source/dispatcher/clog_dispatcher_async_thread.c:30-67 | The worker's loop makes exactly the calls of the direct loop, from any cache its own lookups have filled |
| `HashMap.MaskIsRemainder` | source/utils/clog_hashmap.c:115-118 | Masking with a power of two less one is the remainder, hence in range |
| `HashMap.ChainExactly` | source/utils/clog_hashmap.c:115-118 | An entry is in chain i if and only if its key's hash modulo the number of buckets is i |
| `HashMap.Create` | source/utils/clog_hashmap.c:176-205 | An empty map, or none without memory |
| `HashMap.Map.constructor` | source/utils/clog_hashmap.c:176-205 | A new map is empty, with 16 buckets |
| `HashMap.Map.PutInternal` | source/utils/clog_hashmap.c:227-255 | Replaces, or inserts as the first entry of the chain of the key's hash; without memory nothing changes |
| `HashMap.Map.Resize` | source/utils/clog_hashmap.c:257-314 | Success keeps the abstract map in an array of the new size; failure restores array, sizes, chains and entries exactly and frees the new cells alone |
| `HashMap.Map.Put` | source/utils/clog_hashmap.c:316-345 | Map update, a new key at the front of its chain, or unchanged with an error that memory rules out; the array doubled exactly when full, given memory; no cell leaks; load at most one while no allocation has failed |
| `HashMap.Map.Get` | source/utils/clog_hashmap.c:347-366 | Map lookup; the entry becomes the first of its bucket, everything else keeps its place, and the abstract map stays |
| `HashMap.Map.Take` | source/utils/clog_hashmap.c:368-387 | Lookup and delete |
| `HashMap.Map.Remove` | source/utils/clog_hashmap.c:396-422 | Delete, true exactly if the key was there; the array halved exactly when less than half is left, given memory; a halving that fails changes nothing |
| `HashMap.Map.IsExists` | source/utils/clog_hashmap.c:424-438 | Membership in the abstract map |
| `HashMap.Map.Size` | source/utils/clog_hashmap.c:440-444 | The size of the abstract map |
| `HashMap.Map.Clear` | source/utils/clog_hashmap.c:446-462 | Empties the map, frees every cell, keeps the array |
| `HashMap.Map.FreeBuckets` | source/utils/clog_hashmap.c:214-225 | The teardown frees every cell |
| `HashMapIterator.OrderIsComplete` | source/utils/clog_hashmap.c:475-530 | The order of iteration holds every entry once, and as many as the map counts |
| `HashMapIterator.Iterator.constructor` | source/utils/clog_hashmap.c:475-497 | A new iterator stands at the first entry |
| `HashMapIterator.Iterator.Next` | source/utils/clog_hashmap.c:508-530 | Moves on by exactly one entry; false exactly at the end |
| `BufferPool.Initialize` | source/utils/clog_buffer_pool.c:74-97 | Rejects bad thresholds; with memory succeeds unless the capacity asked for is zero; success gives a running pool with all buffers free; failure leaves no buffer, and the pool itself only if that capacity is not zero |
| `BufferPool.Pool.MallocBatch` | source/utils/clog_buffer_pool.c:47-72 | A chain of num distinct buffers, or none with everything freed again |
| `BufferPool.Pool.Acquire` | source/utils/clog_buffer_pool.c:99-136 | Hands out a buffer nobody holds: the first free one, a new one of the pool, or a temporary one, given memory; with room for an item while the pool runs, with none after |
| `BufferPool.Pool.Release` | source/utils/clog_buffer_pool.c:138-189 | Keeps the counts and frees or keeps the buffer by kind, state and occupancy; the last release after finalize frees the pool and says so; the division is by at least one |
| `BufferPool.Pool.Finalize` | source/utils/clog_buffer_pool.c:191-217 | Frees the free list; capacity is then what is outstanding; the pool is freed now exactly if nothing is |
| `BufferPool.KeptExactly` | source/utils/clog_buffer_pool.c:169-188 | One release keeps the buffer if and only if free*100 < (100-t)*capacity or the pool has its initial size; else the pool loses it |
| `BufferPool.ShrinkClosedForm` | source/utils/clog_buffer_pool.c:169-188 | N outstanding buffers and an empty free list: N releases end with capacity and free count max(init, ceil(N*(100-t)/100)) |
| `BufferPool.ReleaseAll` | source/utils/clog_buffer_pool.c:138-189 | The closed form for the pool itself: releasing all N outstanding buffers in any order |
| `PathNormalize.NormalIsClean` | source/utils/clog_file_system.c:298-322 | No component of a result is empty, `.` or `..`, or holds a slash |
| `PathNormalize.NormalizeIsIdempotent` | source/utils/clog_file_system.c:400-447 | The printed result normalizes to itself |
| `PathNormalize.FailsAboveRoot` | source/utils/clog_file_system.c:311-322 | There is no result exactly when some prefix of the path leads above the root |
| `PathNormalize.DetourChangesNothing` | source/utils/clog_file_system.c:298-322 | Behind any slash of an absolute path, `name/../`, `./` and another slash change nothing |
| `PathNormalize.LastComponent` | source/utils/clog_file_system.c:298-322 | A slash at the end changes nothing, a name there is pushed, `..` there takes exactly the last name away or leads above the root |
| `PathNormalize.PrintedSplits` | source/utils/clog_file_system.c:400-447 | The printed result is its names, each behind one slash, or the slash alone |
| `PathNormalize.WhereAPathStarts` | source/utils/clog_file_system.c:338-367 | A relative path continues from the names of the current directory; an absolute one does not look at it; the exact errors of the others |
| `PathNormalize.Fitting` | source/utils/clog_file_system.c:430-447 | A result with names needs two bytes more than its text: with one it is refused, with two written |
| `PathNormalize.CreatePathNode` | source/utils/clog_file_system.c:293-336 | Pushes, pops or skips one component on the doubly linked stack, as the fold says |
| `PathNormalize.GetUnnormalizedAbsPath` | source/utils/clog_file_system.c:338-367 | The absolute path, or exactly the error for a missing, empty or relative directory or an empty path |
| `PathNormalize.Normalize` | source/utils/clog_file_system.c:370-458 | With memory: the fold of the components joined by slashes if the buffer has one byte to spare; otherwise NO_MEMORY if it ends at a slash and FAIL if within a name; ERROR_FORMAT exactly above the root |
| `Interpolator.CompiledMeansDirect` | source/utils/clog_interpolator.c:121-236 | Interpreting the parsed list gives what substitution read directly off the format text gives, in every room; a rejected format has no direct reading |
| `Interpolator.FormattingExactly` | source/utils/clog_interpolator.c:191-236 | Formatting gives the direct text, its length and success if and only if there is a direct text and no handler reached writes nothing; otherwise an empty text, no length, and success only if a handler wrote nothing |
| `Interpolator.EmptyAnswerLosesTheText` | source/utils/clog_interpolator.c:213-220 | `a{x}b` with an x that writes nothing: the direct text is `ab`, formatting reports success with an empty text |
| `Interpolator.FormatRoundTrip` | source/utils/clog_interpolator.c:99-174 | A printed list of texts and placeholders parses to itself if and only if no text before a placeholder ends in a backslash |
| `Interpolator.PlaceholderExactly` | source/utils/clog_interpolator.c:99-136 | A registered name in braces is a call, an unknown one FAIL; no name, another character or no closing brace INVALID_PARAM |
| `Interpolator.ParsePlaceholderName` | source/utils/clog_interpolator.c:99-119 | The end of the name in braces, or none |
| `Interpolator.CopyLiteral` | source/utils/clog_interpolator.c:153-168 | The literal without the backslashes that escape braces |
| `Interpolator.ParseFormat` | source/utils/clog_interpolator.c:121-174 | The nodes linked behind the root are the parse of the format, or its error; the root's link is left alone if there are none |
| `Interpolator.ParsedLiterals` | source/utils/clog_interpolator.c:201-203 | No literal of a parsed list is empty, as the interpreter asserts |
| `Interpolator.Interpolate` | source/utils/clog_interpolator.c:191-236 | The code, the text, its terminator and the count, in the caller's buffer, of interpreting the list |
| `Common.NameCharExactly` | source/utils/clog_config.c:92-104 | The characters of names, one by one: underscore, digits, letters of either case |
| `ConfigGrammar.DigitExactly` | source/utils/clog_config.c:254-286 | Which characters are digits of a radix, and what each counts |
| `ConfigGrammar.WrittenIsRead` | source/utils/clog_config.c:354-529 | Every sentence of the language (numerals, flags, quoted texts with their escapes, nested lists in any layout), wherever it stands and is not continued, is read as what it means, up to its last character |
| `ConfigGrammar.SentencesExactly` | source/utils/clog_config.c:354-529 | ... and nothing else is read: a value is read if and only if such a sentence stands there |
| `ConfigGrammar.TextExactly` | source/utils/clog_config.c:415-455 | A string literal is read as t if and only if it is t with a backslash before each quote and backslash and a quote behind it; every other is refused |
| `ConfigGrammar.RemarkExactly` | source/utils/clog_config.c:215-221 | Behind a value exactly blanks and then nothing or `#` and any text are allowed |
| `ConfigGrammar.LineIsRead` | source/utils/clog_config.c:550-594 | A name, an equals sign between blanks and a sentence are read as that property if nothing but blanks and a comment follows, and refused otherwise |
| `ConfigGrammar.LinesExactly` | source/utils/clog_config.c:550-594 | ... and no other line is read as a property |
| `ConfigLists.NumeralExactly` | source/utils/clog_config.c:288-307 | A numeral of any radix and length is read as the number it stands for if and only if that is below 2^32, and refused if and only if its low 64 bits are not |
| `ConfigLists.NumbersExactly` | source/utils/clog_config.c:288-389 | A number is read back from its numeral behind 0x in either case, 0o, 0b or nothing if and only if it is below 2^32 |
| `ConfigLists.WrapsToOne` | source/utils/clog_config.c:293-303 | 2^64 + 1 in hexadecimal digits is read as 1 |
| `ConfigLists.ListsExactly` | source/utils/clog_config.c:508-527 | Printed items between commas come back if and only if there is a blank behind every comma |
| `ConfigRoundTrip.ValueRoundTrip` | source/utils/clog_config.c:492-529 | Wherever a printed value stands and is not continued, parsing gives it back and stops right behind it; arrays nest without bound |
| `ConfigRoundTrip.EntryRoundTrip` | source/utils/clog_config.c:550-594 | A printed key and value, with any blanks around the equals sign, parse back to the same if only blanks and a comment follow, and are refused otherwise |
| `ConfigRoundTrip.ValueRoundTripsExactly` | source/utils/clog_config.c:415-529 | Where a printed value stands it is read back, wherever the reader stops, if and only if its numbers have 32 bits and its strings neither quote nor backslash |
| `ConfigRoundTrip.EntryRoundTripsExactly` | source/utils/clog_config.c:708-713 | A printed entry is read back if and only if its key is a name, its value is printable and only blanks and a comment follow |
| `ConfigRoundTrip.LinesAreCut` | source/utils/clog_config.c:632-653 | A text is cut at line feeds and carriage returns, empty lines left out |
| `ConfigRoundTrip.LinesContribute` | source/utils/clog_config.c:596-623 | Blank lines and comments give nothing, a line that starts with a name character behind its blanks is a property, a bracket starts a group, any other line is refused |
| `ConfigRoundTrip.FileRoundTripsExactly` | source/utils/clog_config.c:625-655 | Entries printed one on each line are read back if and only if their values are printable and no string has a line break |
| `ConfigCode.ParseUintRadix` | source/utils/clog_config.c:288-307 | The digits' value in 64-bit arithmetic, rejected beyond 32 bits, and the place behind the last digit |
| `ConfigCode.ParseNumberAt` | source/utils/clog_config.c:354-413 | Decimal numbers, the forms of zero and the radix prefixes |
| `ConfigCode.ParseStringAt` | source/utils/clog_config.c:415-455 | The characters up to the closing quote, with two escapes |
| `ConfigCode.ParseBoolAt` | source/utils/clog_config.c:457-477 | true or false |
| `ConfigCode.ParseValueAt` | source/utils/clog_config.c:492-529 | The loops parse what the function of the round trip parses |
| `ConfigCode.ParsePropertyLine` | source/utils/clog_config.c:550-594 | The three phases parse what the function of the round trip parses |
| `ConfigCode.SplitLines` | source/utils/clog_config.c:632-653 | The loops cut a text into the lines of the round trip |
| `ConfigCode.SetIndent` | source/utils/clog_config.c:657-670 | level copies of the indentation, or nothing if they do not fit |
| `ConfigCode.DumpItem` | source/utils/clog_config.c:672-760 | Writes exactly the printed entry and returns its length if it fits (a scalar with a terminator behind it, an array without), and 0 otherwise |

## Left out

- Weak memory orders, alignment and cache-line padding: steps are sequentially consistent.
- What C does after a step has touched a node freed on the spot: the model keeps the node's content, the program promises nothing from there on.
- Mutexes, read-write locks, semaphores, threads, files and directories: a mutex is ownership, a semaphore a counter, and both always succeed.
- Fairness: progress is what a thread's own steps, or those of polls, reach from every state; that the scheduler grants them is not modelled. `clog_atomic_queue_gc` never polls because of the `atomic_fetch_and` at source/utils/clog_atomic_queue.c:191, so polls are free steps and no bound on garbage is claimed.
- `clog_atomic_queue_destroy`, which passes its last value to the deallocator twice, and enqueue or dequeue once the queue is finalizing.
- `clog_atomic_queue_is_empty`, which reads through head outside a critical section.
- `clog_ebr_unregister` racing with the teardown: unregistering is one step, the teardown another.
- `clog_atomic_mpsc_queue_destroy`: a walk over the list after all threads are gone.
- Loggers that take the lock after destroy has taken it: `DispatchTheorems.ShutdownDrains` promises the items of the others, and all items if there are none.
- Module lookup, filters and formatting inside a logging call, and the move-to-front of concurrent lookups under the read lock.
- The bits of the hash function, which is any function of the key, and the copies of keys and values a map owns: entries are allocated and freed one by one, keys and values are plain values.
- `BufferPool.Pool.Acquire`: does not model the interleaving of two calls at their exchanges, where an address that comes back can deceive the free list.
- Counters of the buffer pool are unbounded; in C `free_count * 100` wraps for pools beyond 2^57 buffers.
- `PathNormalize.Normalize`: does not model the release of its nodes on the way out.
- `ConfigGrammar.SentencesExactly`: says nothing of characters, signed numbers and floats, which the parser's function answers with `Outside`.
- `LockFreeQueueProgress.NobodyIsBlocked`: does not bound the steps while others move, nor a retirement whose thread is overtaken at every exchange.
- `Interpolator.CompiledMeansDirect`: after a closing brace that is not escaped the parser reports success with the pieces before it, as the model does; no meaning is claimed for such formats.
- Handlers that write more than the room they are given, as the one for the message can.
- `ConfigCode.ParseUintRadix`: does not model `0x`, `0o` and `0b` without digits, which send the parser's cursor past the line; it answers `Outside` there.
- `ConfigCode.ParseNumberAt`: does not model signs and floats, which do not round trip; it answers `Outside` there.
- `ConfigCode.ParseValueAt`: does not model characters, signed numbers and floats; an array's children are a sequence, not a list linked through their items.
- `ConfigCode.ParsePropertyLine`: does not model values that are characters, signed numbers or floats, as `ConfigCode.ParseValueAt`.
- `ConfigCode.DumpItem`: does not model items that are signed numbers, floats or characters.
- `ConfigRoundTrip.FileRoundTripsExactly`: does not model groups, indentation and the refusal of a key that comes twice; a group line is `OutsideProperty`.
- Groups of a configuration, their lookup and their printing.
- File rotation, the stdout and syslog recorders, date and time, digits, the error ring, the plain queue and the filter chain.
