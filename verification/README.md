# nets: a verified model

`nets` is a Reactor network library in C++17. This project models the parts of it whose correctness depends on
interleavings, partial results or in-place mutation, and proves what they promise over every input and every run.

| files | component | form |
|---|---|---|
| `Basics.dfy` | what several components use | a datatype and a predicate |
| `ControlWord.dfy`, `ThreadPool*.dfy` | thread pool with its bounded task queue | transition system; any number of callers, workers and closers, each with its own stale copy of `ctl_` |
| `BigEndian.dfy`, `ByteBuffer.dfy` | growable byte buffer | class over an array, refining a byte queue |
| `BlockList.dfy`, `OutboundBooks.dfy`, `ChannelRun.dfy`, `SocketChannel.dfy` | outbound path of a socket channel | class over a block list, refining a channel as a value, whose runs refine a byte stream |
| `TimerTable.dfy`, `TimerBook.dfy`, `TimerPass.dfy`, `TimersLeft.dfy`, `TimersApart.dfy`, `TimerManager.dfy`, `TimerRuns.dfy` | timers | class over a sorted multimap, refining a manager as a value with the history of what fired; a pass is a sequence of turns |
| `EventLoop.dfy` | pending tasks, wakeup, poll timeout | transition system, and a method for the timeout |
| `LogText.dfy`, `LogRun.dfy`, `LogAppender.dfy` | double-buffered log | class shared by producers and the sync thread, refining a log as a value |
| `ConnectorLife.dfy`, `ConnectorChannel.dfy` | connecting, retrying, handing over | class with the loop's map and the kernel's descriptor table, refining a life as a value |
| `ChannelHandlerPipeline.dfy` | handler list | linked objects on the heap, refining a sequence |
| `StackBuffer.dfy` | printing of numbers | class over an array |

`dafny verify dfyconfig.toml` checks all of it.

## How the model reads the source

- In the two transition systems one action is one access to an atomic or one critical section. State that only one
  mutex guards can be read and written in one action, because no other thread sees it in between. `take` tests its stop
  predicate twice, so it is two actions with the queue's mutex held between them.
- In the classes each method is one call on the loop's thread, or one critical section. A method named `AnyRun` plays an
  arbitrary script of such calls and ensures that it made a run of the specification; theorems about those runs are lemmas.
- The kernel is an input: a write takes any legal number of bytes or answers EAGAIN or EINTR, a gathering write may also
  fail hard, the poller reports registered bits and errors, and the clock shows any time that is not negative.
- Callbacks and tasks end and do not throw. A timer callback is the list of additions and cancellations it makes.
- Fields marked as histories, and ghost fields, record a run and do not steer it.

## Where the code does less than it seems to

- `writev` sums the expected length of a chunk with bounds relative to the chunk, so from the second chunk on a short
  write goes unnoticed. The bytes sent are a prefix of the bytes pending, against every kernel, if and only if there are
  at most 2 · 256 blocks: `BlockList.InOrderIffTwoChunks`. Over runs: with at most 512 writes outstanding the channel
  keeps the byte order, `ChannelRuns.StreamTheorem`, and with any larger number there is a run that breaks it,
  `ChannelRuns.OutOfOrderRun`.
- A pass over the timers can leave due timers behind. It does so exactly if one of its turns passed one over, which
  happens in two ways: the timer that fired is put back under the key of the entries behind it, or its callback adds a
  timer with an earlier key: `TimersLeft.LeftTheorem`, with a failing run for each way in `TimerRuns.TieRun` and
  `TimerRuns.AdditionRun`, and the family of maps that fail at once in `TimersLeft.FirstTieLeavesDue`. It
  does not, if no timer comes back, up to the latest time the clock shows, at an instant at which another stands, and
  callbacks add nothing due by then: `TimersApart.ApartTheorem`. That is so if every timer fires at most once:
  `TimersApart.OnceEachApart`.
- A pass never ends on a timer that repeats forever at a fixed rate with a zero interval, if the clock stands still:
  `TimerRuns.ZeroIntervalEndless`.
- `calculateNewCapacity` on 64-bit words ends if and only if the target is at most 2^63: `Capacity.LoopEndsIff`.
- `deregister()` in `newSocketChannel` (nets/net/channel/ConnectorChannel.cpp:159) can drop the last reference to the
  connector, which is then destroyed inside its own handler. The release build touches no member of it afterwards; the
  assertion that follows in a debug build reads one. Here the destruction is a step of its own.
- The log's warning reports half the batch, rounded down, while the erased half is rounded up. It is right if and only if
  the batch size is even: `LogText.LossReported`. Batches of every size above 24 arise, and with them a loss:
  `LogRuns.LossyRun`. None does at a pace of fewer than 24 nearly full buffers between two turns of the sync thread but
  one: `LogRuns.PaceTheorem`. A backup buffer that was used up is not replaced either:
  `LogAppender.FileLogAppender.SwapBuffers`.

## Model

| member | source | states |
|---|---|---|
| `ControlWord.PackUnpack` | nets/base/ThreadPool.h:136-160 | state and count read back from the packed word; adding or subtracting one within the bounds changes the count alone, and the shutdown word keeps the count |
| `ControlWord.BitTestsShutdown` | nets/base/ThreadPool.h:136-160 | on every word with the state SHUTDOWN the masks of the source give the count and the state that the integer functions give |
| `ControlWord.BitTestsRunning` | nets/base/ThreadPool.h:136-160 | the same on every word with the state RUNNING, and the word that shutdown swaps in |
| `ThreadPoolSlots.SwapStep` | nets/base/ThreadPool.cpp:160-171 | a compare-and-swap that succeeds on a stale copy still takes exactly one slot of its kind below that kind's limit, and the pool is running |
| `ThreadPoolSlots.CommitStep` | nets/base/ThreadPool.cpp:171-180 | a reservation becomes a thread without changing the slot count of either kind |
| `ThreadPoolSlots.BackOutStep` | nets/base/ThreadPool.cpp:182-187 | a reservation that meets shutdown gives back exactly its slot, of its own kind |
| `ThreadPoolSlots.ReleaseStep` | nets/base/ThreadPool.cpp:142-155 | `releaseThread` finds its wrapper, and one slot of its kind goes |
| `ThreadPoolSlots.PoolSize` | nets/base/ThreadPool.cpp:157-190 | the slot count is the pool's size plus the reservations in flight |
| `ThreadPoolSlots.StepKeepsSlots` | nets/base/ThreadPool.cpp:71-190 | every action of every thread keeps the slot accounting; the state only goes from running to shutdown, and the count never rises after it |
| `ThreadPoolCore.StepKeepsCore` | nets/base/ThreadPool.h:187-213 | every action keeps core-first order, although callers act on stale copies of the word |
| `ThreadPoolTasks.PopFindsTask` | nets/base/BoundedBlockingQueue.h:204-223 | a worker past both tests of `take` finds a task |
| `ThreadPoolTasks.StepKeepsQueue` | nets/base/BoundedBlockingQueue.h:204-388 | every action keeps the queue bounded and first-in-first-out, with its mutex held by at most the one worker that is popping |
| `ThreadPoolTasks.StepKeepsLedger` | nets/base/ThreadPool.h:183-213 | every action moves at most the one task that the ledger says, to the place it says; all others stay |
| `ThreadPoolTheorems.RunInv` | nets/base/ThreadPool.cpp:71-190 | all invariants hold in every state of every run |
| `ThreadPoolTheorems.CountTheorem` | nets/base/ThreadPool.cpp:142-190 | in every run the count bits are the pool's size plus the reservations in flight, at most maximumPoolSize, and never reach the state bits |
| `ThreadPoolTheorems.ShutdownTheorem` | nets/base/ThreadPool.cpp:71-88 | shutdown is irreversible, and the count never rises after it |
| `ThreadPoolTheorems.DrainedTheorem` | nets/base/ThreadPool.cpp:89-96 | when the wait in `shutdown` ends the pool is empty, and it stays empty |
| `ThreadPoolTheorems.NoFaultTheorem` | nets/base/ThreadPool.cpp:89-155 | the assertion on the empty pool never fails, an empty queue is never popped, and `releaseThread` finds its wrapper |
| `ThreadPoolTheorems.CoreFirstTheorem` | nets/base/ThreadPool.h:187-213 | while running, core slots stay within corePoolSize, and a non-core slot or a queued task exists only if all core slots are taken |
| `ThreadPoolTheorems.OnePlaceTheorem` | nets/base/ThreadPool.h:183-213 | each task is in exactly one of caller, rejected, queue, worker, executed, discarded; `execute` returned true iff it is in neither of the first two; nothing executes twice; discarding needs shutdown |
| `ThreadPoolTheorems.FifoTheorem` | nets/base/BoundedBlockingQueue.h:204-388 | tasks leave the queue in the order they entered it, and the queue respects its bound |
| `ThreadPoolCalls.EntryTheorem` | nets/base/ThreadPool.h:187-200 | a call that enters a running pool tries for a core thread iff the count is below corePoolSize, and otherwise goes on to the push with the word it read |
| `ThreadPoolCalls.RejectionTheorem` | nets/base/ThreadPool.h:183-213 | in every run `execute` answers false only if, during the call, the pool was not running or had maximumPoolSize threads, and only to a call that entered a closed pool or whose push failed |
| `ThreadPoolCalls.AttemptTheorem` | nets/base/ThreadPool.h:200-213 | a call tries for a non-core thread only after its push met a full queue, a taken lock or a copy of the word that was not running; it pushes only if during the call all core slots were taken or the pool was not running |
| `ThreadPoolCalls.LeavingTheorem` | nets/base/ThreadPool.cpp:107-140 | a thread leaves only because the pool was shut down or, if it is no core thread, because its wait ended with the queue empty |
| `ThreadPoolCalls.CloserTheorem` | nets/base/ThreadPool.cpp:71-105 | a call of `shutdown` past its compare-and-swap, or returned, finds the pool shut down, and past its wait without threads |
| `ThreadPoolCalls.PushedTheorem` | nets/base/BoundedBlockingQueue.h:346-373 | what entered the queue in a run is exactly the tasks whose push succeeded, in that order |
| `ThreadPoolCalls.CallProgress` | nets/base/ThreadPool.h:183-213 | a call of `execute` that has not returned can always make its next step |
| `ThreadPoolCalls.WorkerProgress` | nets/base/ThreadPool.cpp:107-155 | a thread that has not gone can make its next step, or waits for a mutex whose holder can, or is a core thread with nothing to do |
| `ThreadPoolCalls.CloserProgress` | nets/base/ThreadPool.cpp:71-105 | a call of `shutdown` that has not returned can make its next step or waits for threads still counted |
| `ThreadPoolEnds.AloneTheorem` | nets/base/ThreadPool.h:183-213 | from any state of any run, a call that nobody interferes with comes to `execute` in one piece: a core thread, else the queue, else a thread up to maximumPoolSize, else false, with exactly that state left |
| `ThreadPoolEnds.BacklogTheorem` | nets/base/ThreadPool.cpp:107-140 | a thread that nobody interferes with runs all queued tasks in order |
| `ThreadPoolEnds.ShutsTheorem` | nets/base/ThreadPool.cpp:71-88 | a call of `shutdown` that nobody interferes with closes a running pool and keeps its count, or finds it closed and returns |
| `ThreadPoolEnds.DrainsTheorem` | nets/base/ThreadPool.cpp:89-104 | once no thread is left, `shutdown` discards the queued tasks from the front and ends with an empty queue |
| `ThreadPoolEnds.ThreadsEndTheorem` | nets/base/ThreadPool.cpp:107-190 | after shutdown no thread is created and each makes at most four more actions, whatever the others do |
| `ThreadPoolEnds.CallsEndTheorem` | nets/base/ThreadPool.h:183-213 | after shutdown a call of `execute` makes at most five more actions |
| `BigEndian.RoundTrip` | nets/net/core/ByteBuffer.cpp:186-230 | encoding and decoding of signed and unsigned integers in network order (Appendix B of RFC 791) are inverse to each other on all values and on all byte strings |
| `BigEndian.EncodedAt` | nets/net/core/ByteBuffer.cpp:186-230 | byte k of an encoding is the digit of place value 256^(width-1-k) of the value modulo 256^width |
| `BigEndian.DecodedIs` | nets/net/core/ByteBuffer.cpp:268-338 | a decoded value is within the bounds of its kind and is, modulo 256^width, the sum of the bytes times their place values, most significant first |
| `BigEndian.TypedQueueTheorem` | nets/net/core/ByteBuffer.cpp:186-338 | any interleaving of typed writes with matching reads on a byte queue returns the written values in order |
| `Capacity.NewCapacityHolds` | nets/net/core/ByteBuffer.cpp:388-401 | the new capacity is a power of two, at least the target and below twice the target |
| `Capacity.NewCapacityIsLeast` | nets/net/core/ByteBuffer.cpp:388-401 | no smaller power of two holds the target |
| `Capacity.CalculateNewCapacity` | nets/net/core/ByteBuffer.cpp:388-401 | the doubling loop ends with that capacity |
| `Capacity.LoopEndsIff` | nets/net/core/ByteBuffer.cpp:388-401 | on 64-bit words the loop reaches the target iff the target is at most 2^63; above it never ends |
| `Capacity.LoopEndsWith` | nets/net/core/ByteBuffer.cpp:388-401 | where the loop on words ends, it ends with the same capacity |
| `ByteBuffers.ByteBuffer.FromData` | nets/net/core/ByteBuffer.cpp:63-67 | a buffer made from data holds the data, with the least power of two as its capacity |
| `ByteBuffers.ByteBuffer.AdjustCapacity` | nets/net/core/ByteBuffer.cpp:403-425 | growth and in-place compaction keep the readable bytes; a reallocation copies exactly those, and all copying by reallocations so far stays within the capacity |
| `ByteBuffers.ByteBuffer.EnsureWritable` | nets/net/core/ByteBuffer.cpp:363-386 | makes room and keeps the contents, or is refused and changes nothing; when refused, and the new capacity, are stated exactly; a reallocation at least doubles a power of two and copies the contents once |
| `ByteBuffers.ByteBuffer.WriteBytes` | nets/net/core/ByteBuffer.cpp:147-152 | appends to the byte queue; a refused write changes nothing |
| `ByteBuffers.ByteBuffer.AdjustReaderIndex` | nets/net/core/ByteBuffer.cpp:435-446 | drops n bytes from the front, or all of fewer, across the index reset |
| `ByteBuffers.ByteBuffer.ReadBytes` | nets/net/core/ByteBuffer.cpp:260-266 | takes exactly n bytes from the front; with fewer it fails and changes nothing |
| `ByteBuffers.ByteBuffer.SetReaderIndex` | nets/net/core/ByteBuffer.h:88-91 | skips the bytes in front of the index, or gives bytes back, and leaves the room behind |
| `ByteBuffers.ByteBuffer.WriteInteger` | nets/net/core/ByteBuffer.cpp:186-230 | appends the bytes of the value with the most significant first, each given by its place value, or is refused and changes nothing |
| `ByteBuffers.ByteBuffer.ReadInteger` | nets/net/core/ByteBuffer.cpp:268-338 | removes the first bytes and returns the value within its kind that is their positional sum modulo 256^width, or fails and changes nothing |
| `ByteBuffers.ByteBuffer.NotRefused` | nets/net/core/ByteBuffer.cpp:363-386 | a write that ends within 2^30 bytes is never refused while the capacity is within its maximum |
| `ByteBuffers.ByteBuffer.Interleave` | nets/net/core/ByteBuffer.cpp:186-338 | on the real buffer, over any interleaving of typed writes and matching reads, the reads return the values of a plain queue of values; if it stops, it is at a write that the buffer refuses, with the values of the reads in front of it; it does not stop if the bytes written fit within 2^30 |
| `BlockList.DroppedExactly` | nets/net/channel/SocketChannel.cpp:434-451 | removing n sent bytes removes exactly the first n pending bytes and leaves no empty block |
| `BlockList.GatherBounded` | nets/net/channel/SocketChannel.cpp:385-432 | a gathering write of any number of blocks never sends more than is pending, and all of it exactly if as many bytes |
| `BlockList.GatherCalls` | nets/net/channel/SocketChannel.cpp:385-432 | a gathering write goes on chunk after chunk while no answer is shorter than expected, stops at the first that is, sends as many bytes as the kernel took, and fails iff it stopped at a hard error |
| `BlockList.TwoChunksInOrder` | nets/net/channel/SocketChannel.cpp:385-432 | with at most two chunks the bytes sent are a prefix of the bytes pending, whatever the kernel answers |
| `BlockList.ThirdChunkOutOfOrder` | nets/net/channel/SocketChannel.cpp:394-410 | for every larger number of blocks there are answers that break the order |
| `BlockList.InOrderIffTwoChunks` | nets/net/channel/SocketChannel.cpp:385-432 | order is kept against every kernel iff there are at most two chunks |
| `BlockList.SinglesAppended` | nets/net/channel/SocketChannel.cpp:358-383 | the lists that break the order are those that one-byte writes make |
| `BlockList.AppendedHolds` | nets/net/channel/SocketChannel.cpp:358-383 | appending data to the list appends it to the pending bytes, without a new block iff the last one has room |
| `OutboundBooks.ScheduledInOrder` | nets/net/channel/SocketChannel.cpp:209-226 | callbacks are scheduled in write order, each at most once, only after the last byte of their write, and those not scheduled are still queued |
| `OutboundBooks.QueueingBalances` | nets/net/channel/SocketChannel.cpp:308-355 | a write that leaves bytes behind keeps accepted = sent ++ pending and the callback queue in step |
| `OutboundBooks.SendingBalances` | nets/net/channel/SocketChannel.cpp:320-355 | so does a write that the kernel takes whole |
| `OutboundBooks.EmptyingBalances` | nets/net/channel/SocketChannel.cpp:204-226 | so does a write event that empties the list |
| `OutboundBooks.TrimmingBalances` | nets/net/channel/SocketChannel.cpp:227-243 | so does a write event that sends a part |
| `OutboundBooks.FailingBalances` | nets/net/channel/SocketChannel.cpp:227-243 | a gathering write that fails hard leaves what was sent a prefix of what was accepted |
| `ChannelRuns.BookedBalances` | nets/net/channel/SocketChannel.cpp:296-356 | a write of an open channel is accepted whole; what is sent at once is exactly what the kernel took of it, only if nothing was pending; the history gains exactly one entry, with the length of the stream and the presence of the callback, unless the data is empty |
| `ChannelRuns.WriteHandledKeeps` | nets/net/channel/SocketChannel.cpp:186-243 | a write event keeps the books balanced in every outcome, and keeps the order as long as it meets at most two chunks |
| `ChannelRuns.MoveKeeps` | nets/net/channel/SocketChannel.cpp:150-253 | whatever happens, an open channel accepts exactly what is offered, an inactive one changes no more, and with at most 512 writes outstanding the order is kept |
| `ChannelRuns.StreamTheorem` | nets/net/channel/SocketChannel.cpp:186-451 | in every state of every run with at most 512 writes outstanding, accepted = sent ++ pending for an open channel, and sent is a prefix of accepted for a closed one |
| `ChannelRuns.FewWritesInOrder` | nets/net/channel/SocketChannel.cpp:186-451 | the same for every run of at most 512 writes |
| `ChannelRuns.OutOfOrderRun` | nets/net/channel/SocketChannel.cpp:385-432 | for every larger number of writes there is a run whose sent bytes are no prefix of the accepted ones |
| `ChannelRuns.AcceptanceTheorem` | nets/net/channel/SocketChannel.cpp:296-318 | an open channel accepted every byte offered, a closed one those offered before it closed |
| `ChannelRuns.WritesTheorem` | nets/net/channel/SocketChannel.cpp:296-356 | in every state of every run the writes on record are the non-empty writes of the script up to the end of the channel, in order, each with its own callback and the summed length as its end |
| `ChannelRuns.ClosingTheorem` | nets/net/channel/SocketChannel.cpp:150-253 | a channel closes exactly on an error event, a hard read error, the end of stream with nothing pending, a hard write error, or the last byte sent after the end of stream; it half-closes exactly on the end of stream with bytes pending |
| `ChannelRuns.WriteEventTheorem` | nets/net/channel/SocketChannel.cpp:186-243 | a report of writability is acted upon: the kernel's answers are the bytes sent, and if they cover all that is pending, the list is empty and every callback scheduled |
| `ChannelRuns.CompletionTheorem` | nets/net/channel/SocketChannel.cpp:209-226 | in every state of every run callbacks were scheduled in write order, once, after the last byte of their write, and those not scheduled are still queued; none is queued iff nothing is pending; ending by end of stream leaves nothing unsent |
| `SocketChannels.SocketChannel.ChannelActive` | nets/net/channel/SocketChannel.cpp:71-91 | the channel starts open, watching for reading, with empty books |
| `SocketChannels.SocketChannel.DoWrite` | nets/net/channel/SocketChannel.cpp:296-318 | the write of the specification, with write interest iff bytes are pending |
| `SocketChannels.SocketChannel.DoWriteDirectly` | nets/net/channel/SocketChannel.cpp:320-356 | whatever part the kernel takes, the rest is queued and the callback with it, or scheduled at once if there is no rest |
| `SocketChannels.SocketChannel.AppendBuffer` | nets/net/channel/SocketChannel.cpp:358-383 | the last block or a new one takes the data, and write interest is on |
| `SocketChannels.SocketChannel.Writev` | nets/net/channel/SocketChannel.cpp:385-432 | the chunk loop sends and returns what the gathering write of the specification does |
| `SocketChannels.SocketChannel.RemoveSentBuffer` | nets/net/channel/SocketChannel.cpp:434-451 | the loop drops the first n bytes of the list |
| `SocketChannels.SocketChannel.FlushCallbacks` | nets/net/channel/SocketChannel.cpp:209-218 | every queued callback that is not null is scheduled, in write order |
| `SocketChannels.SocketChannel.HandleWriteEvent` | nets/net/channel/SocketChannel.cpp:186-243 | the assertions at lines 193 and 203 hold, and the outcome is the write event of the specification |
| `SocketChannels.SocketChannel.HandleReadEvent` | nets/net/channel/SocketChannel.cpp:150-184 | end of stream closes the channel if nothing is pending, else it goes on writing only; replies written by the user are accepted |
| `SocketChannels.SocketChannel.HandleErrorEvent` | nets/net/channel/SocketChannel.cpp:245-253 | an open channel becomes inactive and disconnects once |
| `SocketChannels.SocketChannel.HandleEvent` | nets/net/channel/Channel.cpp:220-234 | the three handlers in their order, with the state and the books stated exactly |
| `SocketChannels.AnyRun` | nets/net/channel/SocketChannel.cpp:150-451 | any script makes a run of the specification; interest, mask and list agree, disconnect fired once iff the channel is inactive; with at most 512 writes an open channel accepted all bytes offered and accepted = sent ++ pending |
| `TimerTable.AddKeeps` | nets/base/timer/TimerManager.h:56-65 | adding keeps the map sorted and every entry truthful |
| `TimerTable.CancelKeeps` | nets/base/timer/TimerManager.cpp:29-44 | so does lazy cancellation, in the map or after the timer left it |
| `TimerTable.FireKeeps` | nets/base/timer/Timer.cpp:97-101 | so does a firing, which is never before its scheduled time |
| `TimerTable.ReinsertKeeps` | nets/base/timer/TimerManager.cpp:63-78 | so does re-insertion: the key is the new expiry, and a fixed-rate timer is due exactly k intervals after its first expiry |
| `TimerTable.DropKeeps` | nets/base/timer/TimerManager.cpp:79-82 | so does erasing a timer that is done |
| `TimerBooks.HandleFinds` | nets/base/timer/TimerManager.cpp:29-34 | a timer in the map stands at or behind the expiry in its handle, however often it fired |
| `TimerBooks.HandleCancels` | nets/base/timer/TimerManager.cpp:29-44 | with the handle that was given out the scan finds the timer or it has left the map: either way it counts as cancelled |
| `TimerBooks.PerformedKeeps` | nets/base/timer/Timer.cpp:97-101 | whatever a callback adds or cancels, the running entry stays under its key, alive or cancelled, and the table stays sound |
| `TimerPasses.PassesOverIffTied` | nets/base/timer/TimerManager.cpp:67-77 | a pass goes on at the very next entry iff the timer it put back does not tie with that entry |
| `TimerPasses.TurnKeeps` | nets/base/timer/TimerManager.cpp:52-83 | one iteration keeps the table sound: nothing fires early, too often or after cancellation |
| `TimerPasses.TurnOnward` | nets/base/timer/TimerManager.cpp:63-82 | a pass goes on at a key no earlier than the one it fired |
| `TimerPasses.PassInOrder` | nets/base/timer/TimerManager.cpp:46-84 | callbacks of a pass run in the order of their scheduled times |
| `TimersLeft.TurnElements` | nets/base/timer/TimerManager.cpp:63-82 | what a turn leaves in front of the pass is what its callback added in front, and the entries its timer tied with |
| `TimersLeft.PassMatches` | nets/base/timer/TimerManager.cpp:46-84 | the entries in front of a pass are those passed over, in the order of the map, alive or cancelled since |
| `TimersLeft.LeftTheorem` | nets/base/timer/TimerManager.cpp:46-84 | a due timer is in the map after a pass iff a turn passed it over and nobody cancelled it; the pass stops at the front iff it passed nothing over |
| `TimersLeft.TiePassesOver` | nets/base/timer/TimerManager.cpp:67-77 | a concrete map on which a tie leaves a due timer behind |
| `TimersLeft.AdditionPassesOver` | nets/base/timer/TimerManager.cpp:61-82 | a concrete turn whose callback adds a due timer that is left behind |
| `TimersLeft.FirstTieLeavesDue` | nets/base/timer/TimerManager.cpp:67-77 | if the first timer ties with the second, alive and due by the end, a pass with idle callbacks leaves the second behind |
| `TimersApart.OnceEachApart` | nets/base/timer/TimerManager.cpp:63-77 | a map in which every timer fires at most once up to the horizon is apart |
| `TimersApart.TurnApart` | nets/base/timer/TimerManager.cpp:63-82 | a turn keeps a map apart |
| `TimersApart.ApartTheorem` | nets/base/timer/TimerManager.cpp:46-84 | after a pass over a map that is apart up to the horizon nothing is due, if callbacks add nothing due by then |
| `TimerFuel.TurnSpends` | nets/base/timer/TimerManager.cpp:52-83 | each iteration with an idle callback lowers the summed measure of firings left up to the horizon |
| `TimerManagers.TimerManager.AddTimer` | nets/base/timer/TimerManager.h:56-65 | the timer goes in behind equal keys, under a fresh id |
| `TimerManagers.TimerManager.FindTimer` | nets/base/timer/TimerManager.cpp:33-36 | the scan from the handle's expiry finds the first entry with the id at or behind it |
| `TimerManagers.TimerManager.RemoveTimer` | nets/base/timer/TimerManager.cpp:29-44 | the timer found is dead where it stands; with the handle that was given out the timer is cancelled for good |
| `TimerManagers.TimerManager.RunCallback` | nets/base/timer/Timer.cpp:97-101 | the effects of a callback, with the iterator staying on its element |
| `TimerManagers.TimerManager.Settle` | nets/base/timer/TimerManager.cpp:61-82 | update, erase and re-insertion, and where the pass goes on |
| `TimerManagers.TimerManager.TakeTurn` | nets/base/timer/TimerManager.cpp:52-83 | one iteration is one turn |
| `TimerManagers.TimerManager.Update` | nets/base/timer/TimerManager.cpp:46-84 | the pass ends, as a completed pass of turns; callbacks run in scheduled order; what is due after it is exactly what it passed over; nothing, on a map that is apart |
| `TimerManagers.TimerManager.NearestTimerRemainingExpiredTime` | nets/base/timer/TimerManager.cpp:86-102 | the whole milliseconds to the first key, never more than the time to any timer |
| `TimerRuns.FiringTheorem` | nets/base/timer/Timer.cpp:97-115 | in every run: no callback before its time, the k-th firing at fixed rate is scheduled at t0 + k intervals, none beyond the repeat count |
| `TimerRuns.FirstFiringTheorem` | nets/base/timer/Timer.cpp:97-115 | the first firing of a timer is scheduled at its expiry |
| `TimerRuns.IntervalTheorem` | nets/base/timer/Timer.cpp:97-115 | of two successive firings the later is scheduled one interval after the earlier: after its actual time with a fixed delay, after its scheduled time otherwise |
| `TimerRuns.StandingTheorem` | nets/base/timer/TimerManager.cpp:46-84 | a timer not cancelled that has firings to come is in the map, due one interval after its last firing, with exactly the rest of its repetitions |
| `TimerRuns.DepartureTheorem` | nets/base/timer/TimerManager.cpp:61-82 | a timer that left the map without being cancelled fired exactly as often as its repeat count says |
| `TimerRuns.AdditionTheorem` | nets/base/timer/TimerManager.h:56-65 | a timer added by a call of the run keeps its id and particulars in the history |
| `TimerRuns.CancellationTheorem` | nets/base/timer/TimerManager.cpp:29-44 | after a call of the run that cancels with the handle given out, the timer never fires again |
| `TimerRuns.CallbackCancellationTheorem` | nets/base/timer/TimerManager.cpp:29-44 | a callback of the run that cancels any timer with the handle given out is as final: the cancellation is in every later history, and no firing of the timer is behind it |
| `TimerRuns.SelfCancellationTheorem` | nets/base/timer/Timer.cpp:97-115 | a timer that cancels itself from its own callback has fired for the last time |
| `TimerRuns.PassTheorem` | nets/base/timer/TimerManager.cpp:46-84 | each pass of the run fires in scheduled order and leaves due exactly what it passed over |
| `TimerRuns.AnyRun` | nets/base/timer/TimerManager.cpp:29-84 | any calls on a fresh manager make such a run, each call doing what its operation specifies |
| `TimerRuns.TieRun` | nets/base/timer/TimerManager.cpp:67-77 | two additions and a pass that leaves a due timer behind by a tie |
| `TimerRuns.AdditionRun` | nets/base/timer/TimerManager.cpp:61-82 | an addition and a pass that leaves a due timer behind, which a callback added |
| `TimerRuns.ZeroIntervalEndless` | nets/base/timer/TimerManager.cpp:52-83 | with a zero interval and the clock standing still there are passes of any number of turns, always ready for another |
| `EventLoops.StepInv` | nets/net/core/EventLoop.cpp:156-169 | every action keeps the task order and the wakeup invariant |
| `EventLoops.WakeupTheorem` | nets/net/core/EventLoop.h:135-147 | in the poller with tasks pending, the notifier is signalled or an adder is between its push and its signal |
| `EventLoops.TaskOrderTheorem` | nets/net/core/EventLoop.cpp:156-169 | executed ++ batch ++ pending is the sequence of added tasks in the order of the lock |
| `EventLoops.HistoryTheorem` | nets/net/core/EventLoop.h:135-147 | in every run the tasks executed are the first of those pushed, one for each that the loop ran, and the notifier counts the signals since it was last read |
| `EventLoops.LoopProgress` | nets/net/core/EventLoop.cpp:72-91 | the loop can always make its next step, and is woken by a signalled notifier |
| `PollTimeouts.PollTimeout` | nets/net/core/EventLoop.cpp:72-91 | the timeout is within 1 and 3000 ms and exceeds the time to no timer, unless it is the minimum |
| `LogText.LossReported` | nets/base/log/LogAppender.cpp:152-162 | a batch loses buffers iff it has more than 24, namely those from index size/2 on; the number reported is size/2 rounded down and right iff the size is even |
| `LogText.OutputText` | nets/base/log/LogAppender.cpp:152-163 | the bytes written for a batch are those of its surviving records, and of the warning |
| `LogText.LosslessIff` | nets/base/log/LogAppender.cpp:152-163 | the file has exactly the bytes of the records handed over iff no batch was oversized |
| `LogText.WarningText` | nets/base/log/LogAppender.cpp:156-160 | the text of a warning holds the number of dropped buffers in decimal |
| `LogRuns.ConservationTheorem` | nets/base/log/LogAppender.cpp:84-172 | in any interleaving the records handed to the file, the batch, the full buffers and the cache are those appended, in the order of the lock |
| `LogRuns.LossTheorem` | nets/base/log/LogAppender.cpp:84-172 | in every run the file has exactly the bytes handed to it iff no batch was oversized |
| `LogRuns.PaceTheorem` | nets/base/log/LogAppender.cpp:84-172 | a script that produces fewer bytes than 24 nearly full buffers hold, between two turns of the sync thread but one, loses nothing |
| `LogRuns.SizeTheorem` | nets/base/log/LogAppender.cpp:84-107 | in every run the cache and the full buffers stay below 2 MB, and a full buffer has no room for another record of the longest kind |
| `LogRuns.FlushTheorem` | nets/base/log/LogAppender.cpp:120-172 | once producers pause, three turns of the sync thread hand over every byte appended |
| `LogRuns.LossyRun` | nets/base/log/LogAppender.cpp:152-162 | for every size above 24 there is a run with a batch of that size, whose file lacks bytes, and whose warning is one too few if the size is odd |
| `LogAppender.FileLogAppender.Append` | nets/base/log/LogAppender.cpp:84-107 | the bytes of the record go whole into one buffer, behind all earlier ones; every buffer is made of whole records, and a cache is in place again |
| `LogAppender.FileLogAppender.SwapBuffers` | nets/base/log/LogAppender.cpp:126-151 | the sync thread takes everything iff there is something to take; nothing is lost or reordered |
| `LogAppender.FileLogAppender.WriteBatch` | nets/base/log/LogAppender.cpp:152-170 | the file grows by exactly the bytes of the batch, or of its first half and one warning |
| `LogAppender.FileLogAppender.SyncSingleFile` | nets/base/log/LogAppender.cpp:196-202 | the buffers are written one after the other |
| `LogAppender.AnyRun` | nets/base/log/LogAppender.cpp:84-172 | any turns on a new appender leave the log of those turns in whole records, and its file; at the pace above the file has every byte handed to it |
| `ConnectorLives.WriteOnlySeesNoError` | nets/net/poller/EpollPoller.cpp:81-109 | a channel that watches for writing is never told of an error iff that is all it watches for |
| `ConnectorLives.NextOk` | nets/net/channel/ConnectorChannel.cpp:42-245 | every event keeps one owner for each open descriptor, accounts for each descriptor created, and leaves a connected connector connected |
| `ConnectorLives.OwnershipTheorem` | nets/net/channel/ConnectorChannel.cpp:42-245 | in every run: created = closed + handed over + owned, at most one hand-over, nothing left after destruction |
| `ConnectorLives.FinalTheorem` | nets/net/channel/ConnectorChannel.cpp:148-168 | CONNECTED is final, and so is destruction |
| `ConnectorLives.PollTheorem` | nets/net/core/EventLoop.cpp:72-91 | no error task is left when the loop polls, and the poller reports no error to the connector |
| `ConnectorLives.ConnectTheorem` | nets/net/channel/ConnectorChannel.cpp:104-204 | in every run: a connection made is handed over; one in progress waits on the new descriptor, which stays open; a transient error closes it and schedules another connect; any other leaves it to the destructor |
| `ConnectorLives.CompletionTheorem` | nets/net/channel/ConnectorChannel.cpp:56-75 | a wait for a connection in progress that is reported writable ends with its descriptor handed over or, if the socket has an error, with the error task |
| `ConnectorLives.ErrorTheorem` | nets/net/channel/ConnectorChannel.cpp:77-102 | the error task closes the descriptor and schedules another connect iff the connector retries |
| `ConnectorLives.TaskTheorem` | nets/net/core/EventLoop.cpp:72-91 | after a failed wait the end of the handling and the swap of the task list lead to the error task |
| `ConnectorLives.ConnectorProgress` | nets/net/core/EventLoop.cpp:72-91 | in every run the loop can go on, and an attempt that is due can be made on any descriptor that is not open |
| `ConnectorLives.RetriedRun` | nets/net/channel/ConnectorChannel.cpp:56-245 | a run whose first connect is refused and whose second one is answered later and handed over |
| `Connectors.ConnectorChannel.Connect` | nets/net/channel/ConnectorChannel.cpp:104-120 | the new descriptor overwrites no open one, and the attempt goes where the answer says |
| `Connectors.ConnectorChannel.NewSocketChannel` | nets/net/channel/ConnectorChannel.cpp:148-168 | the descriptor changes owner; the connector's key leaves the channel map before the socket channel registers |
| `Connectors.ConnectorChannel.HandleConnectError` | nets/net/channel/ConnectorChannel.cpp:170-204 | each class of error leads to waiting, a scheduled retry or giving up |
| `Connectors.ConnectorChannel.WaitConnect` | nets/net/channel/ConnectorChannel.cpp:206-230 | the connector waits in the map, or retries, or gives up |
| `Connectors.ConnectorChannel.Reconnect` | nets/net/channel/ConnectorChannel.cpp:232-245 | the open descriptor is closed once and one connect is scheduled |
| `Connectors.ConnectorChannel.HandleWriteEvent` | nets/net/channel/ConnectorChannel.cpp:56-75 | hands over, or queues one error task; outside CONNECTING nothing changes |
| `Connectors.ConnectorChannel.HandleErrorEvent` | nets/net/channel/ConnectorChannel.cpp:77-102 | queues the one error task |
| `Connectors.ConnectorChannel.RunErrorTask` | nets/net/channel/ConnectorChannel.cpp:77-102 | finds the connector registered, takes it out of the map, and retries or gives up |
| `Connectors.ConnectorChannel.PollReturns` | nets/net/poller/EpollPoller.cpp:81-109 | the connector is told of writability only |
| `Connectors.ConnectorChannel.HandleEvent` | nets/net/channel/Channel.cpp:220-234 | at most one of the two handlers acts |
| `Connectors.ConnectorChannel.EndBatch` | nets/net/core/EventLoop.cpp:72-91 | a queued error task has run before the next poll |
| `Connectors.ConnectorChannel.Destroy` | nets/net/channel/ConnectorChannel.cpp:42-49 | every descriptor created was closed once or handed over; nothing else is closed |
| `Connectors.TryMove` | nets/net/channel/ConnectorChannel.cpp:42-245 | every step of the class, if it is possible, is the step of the specification |
| `Connectors.AnyRun` | nets/net/channel/ConnectorChannel.cpp:42-245 | any moves make a run of the specification; one attempt at most is outstanding in map, timers and task list together |
| `HandlerPipeline.ChannelHandler.FindLast` | nets/net/core/ChannelHandler.cpp:33-46 | the last handler of the chain |
| `HandlerPipeline.ChannelHandler.FindLastPrev` | nets/net/core/ChannelHandler.cpp:48-58 | the last but one |
| `HandlerPipeline.ChannelHandler.FindNamedPrev` | nets/net/core/ChannelHandler.cpp:60-77 | the handler in front of the first with the name, or null iff there is none |
| `HandlerPipeline.ChannelHandler.FindPrev` | nets/net/core/ChannelHandler.cpp:79-96 | the handler in front of the given one, or null iff it is not there |
| `HandlerPipeline.ChannelHandlerPipeline.AddFirst` | nets/net/core/ChannelHandlerPipeline.cpp:34-44 | the sequence grows at the front; null is ignored |
| `HandlerPipeline.ChannelHandlerPipeline.AddLast` | nets/net/core/ChannelHandlerPipeline.cpp:46-60 | the sequence grows at the end; null is ignored |
| `HandlerPipeline.ChannelHandlerPipeline.UnlinkHead` | nets/net/core/ChannelHandlerPipeline.cpp:134-146 | the head goes, with a null successor |
| `HandlerPipeline.ChannelHandlerPipeline.Unlink` | nets/net/core/ChannelHandlerPipeline.cpp:148-159 | exactly the one handler goes, with a null successor |
| `HandlerPipeline.ChannelHandlerPipeline.RemoveFirst` | nets/net/core/ChannelHandlerPipeline.cpp:62-71 | removes and returns the first handler, free to be added again |
| `HandlerPipeline.ChannelHandlerPipeline.RemoveLast` | nets/net/core/ChannelHandlerPipeline.cpp:73-89 | removes and returns the last handler, free to be added again |
| `HandlerPipeline.ChannelHandlerPipeline.RemoveNamed` | nets/net/core/ChannelHandlerPipeline.cpp:91-111 | removes the first match and only that |
| `HandlerPipeline.ChannelHandlerPipeline.Remove` | nets/net/core/ChannelHandlerPipeline.cpp:113-132 | removes the handler iff it is linked |
| `HandlerPipeline.AnyRun` | nets/net/core/ChannelHandlerPipeline.cpp:34-159 | any sequence of all operations, re-adding removed handlers at either end included, leaves an acyclic list of exactly the handlers that a plain sequence of numbers put through the same operations names |
| `Numerals.ParseNumeral` | nets/base/StackBuffer.h:194-216 | the printed numeral parses back to the value, in every base up to 16 |
| `Numerals.NoLeadingZero` | nets/base/StackBuffer.h:194-216 | only zero starts with a zero |
| `Numerals.NumeralAt` | nets/base/StackBuffer.h:194-216 | the character at k from the end is that of the digit of place value base^k |
| `Numerals.DigitCharacters` | nets/base/StackBuffer.h:39-41 | the digits are the decimal characters, then the small letters from a |
| `Numerals.Digits64` | nets/base/StackBuffer.h:194-248 | values below 2^64 have at most 20 decimal and 16 hexadecimal digits |
| `StackBuffers.StackBuffer.WriteBytes` | nets/base/StackBuffer.h:140-147 | appends all of the data if more room than that is left, else nothing |
| `StackBuffers.StackBuffer.PutDigits` | nets/base/StackBuffer.h:194-216 | the digit loop writes the numeral backwards and touches no earlier byte |
| `StackBuffers.StackBuffer.TurnDigits` | nets/base/StackBuffer.h:194-216 | the range is reversed and nothing in front of it touched |
| `StackBuffers.StackBuffer.WriteInteger` | nets/base/StackBuffer.h:194-216 | appends the canonical decimal numeral within bounds if the guard admits it, else nothing |
| `StackBuffers.StackBuffer.WritePointer` | nets/base/StackBuffer.h:228-248 | appends "0x" and the canonical hexadecimal numeral under the same guard |

## Left out

- The thread pool's wakeups: blocked workers are notified without the queue's lock, so no claim is made that each of them wakes. Proved are that nobody is stuck without a reason, and bounds on what is left to do after shutdown.
- The thread pool's assertion that the queue is empty after the drain (nets/base/ThreadPool.cpp:103): a caller with a stale copy of the word can still push.
- The assertion that `execute` makes on entry (nets/base/ThreadPool.h:188): the model follows a build without assertions, where `execute` returns false.
- `submit` and its futures, the other `put` and `take` variants of BoundedBlockingQueue, thread names: they add no new interleaving.
- ThreadPoolTheorems.CountTheorem: assumes maximumPoolSize below 2^30, which the thirty count bits demand but the constructor does not check.
- SocketChannels.SocketChannel.DoWriteDirectly: does not model a hard error of the direct write (nets/net/channel/SocketChannel.cpp:333-355), after which the code goes on with a count of -1.
- SocketChannels.SocketChannel.DoWrite: excludes that error likewise.
- SocketChannels.AnyRun: does not model `shutdown` and `shutdownWrite` called by the user with data pending, which discard it by design, nor the later task that deregisters an inactive channel.
- SocketChannels.SocketChannel.HandleReadEvent: does not claim that a read of zero is the end of the stream; `doRead` also returns zero if its first read would block.
- SocketChannels.SocketChannel.AppendBuffer: the blocks of the list are values, each the readable bytes and the room of a ByteBuffer (`ByteBuffers.ByteBuffer.View`); ByteBuffer's own mutation is modelled in its class.
- Capacity.CalculateNewCapacity: the loop is on unbounded integers; `Capacity.LoopEndsIff` says when the one on words ends.
- ByteBuffers.ByteBuffer.WriteBytes: a first allocation from capacity zero is not bounded, as in the source.
- `writeByteBuffer`, floats and doubles in host order, buffers filled from sockets.
- TimerManagers.TimerManager.Update: needs a positive interval for timers that repeat forever and a clock that stays below some horizon, without which the pass need not end; null callbacks are not modelled.
- ByteBuffers.ByteBuffer.SetReaderIndex: an index above the writer index, which the setter takes unchecked, breaks the buffer and is excluded.
- TimersApart.ApartTheorem: a sufficient condition on the map before the pass; the exact one is on the turns of the pass, in `TimersLeft.LeftTheorem`.
- Timer ids come from one generator for each manager here, from one for the process in the source; only their being distinct matters.
- EventLoops.WakeupTheorem: no fairness, and no shutdown of the loop. Registration of a channel on another loop's thread, a data race, is not modelled.
- LogAppender.AnyRun: records are shorter than a LogBuffer, as the front end makes them; no final drain when the appender is destroyed, no rolling and renaming of files; the file is the sequence of records written.
- Connectors.AnyRun: sockets are always created, and the destruction of a connector inside its own handler (see above) happens after the handler. No claim is made about the number of retries: connect errors that count as transient are retried whatever `retry_` says.
- HandlerPipeline.AnyRun: one handler linked into two pipelines is outside the precondition of the add operations.
- StackBuffers.StackBuffer.WriteInteger: unsigned values only; for negative ones the source indexes its digits with a negative remainder.
- DatagramChannel, ServerSocketChannel, socket options and addresses, bootstrap classes, the logger's front end: plumbing.
