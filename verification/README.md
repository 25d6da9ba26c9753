# Verified model of the low-latency WebSocket client

A Dafny model of the parts of the client that carry its correctness arguments, with
proofs about every run, every interleaving and every input:

* the lock-free single-producer single-consumer ring buffer (`SpscModel`, `SpscQueue`),
* the receive path built on it, and the mutex-and-condition-variable queue it replaces
  (`ClientModel`, `LockedQueue`, `ReceiveRefinement`, `ReceivePath`, `EchoBench`),
* the connection manager with its owner, heartbeat, monitor and reconnect threads
  (`ConnectionModel`, `ConnectionResults`, `ConnectionLosses`, `ConnectionStop`,
  `ConnectionHandles`, `ConnectionHeartbeat`) and its backoff loop (`Backoff`),
* the fixed-block memory pool, its free list threaded through user memory, and its
  owning handles (`PoolLayout`, `PoolModel`, `MemoryPool`, `PoolHandles`, `HandleObjects`),
* the latency percentiles (`LatencyStats`),
* the bit arithmetic these share (`Bits`) and the shipped constants (`Defaults`).

`dafny verify dfyconfig.toml` checks everything.

## How the code is modelled

Threads that share memory are step systems. A state holds the shared fields and one
program counter for each thread; an event is one step of one thread; `Legal(s, es)` says
that `es` is a run from `s` and `Exec(s, es)` is where it leads. Results are stated for all
runs from the initial state. Connect results, callbacks, socket reads and drops are
arbitrary choices carried by the events.

* **Ring buffer.** Each atomic load, slot access and atomic store is a step. An atomic is
  its modification order, and a load of the other thread's index may return any store not
  older than the last one obtained (read-read coherence, section 4.7.1 [intro.races] of
  ISO C++17). Slot accesses carry clocks that release stores publish and acquire loads
  learn, so a data race is a slot access whose predecessor has not been learnt. Indices are
  computed with the code's own mask on 64-bit words. `SpscQueue.Queue` is the same buffer as
  an object for uncontended use.
* **Connection manager.** One `start`, then `stop`; creating a thread and assigning its
  handle is one step. For each program counter, one function says where it goes next and
  others say what it stores on the way. A `stop` that finds the run flag clear returns at
  once and is not a step. The last six fields of the state are history only.
* **Memory pool.** One byte array holds both the users' data and the links, eight bytes
  little-endian. Pointers are addresses, null is zero.
* **Percentiles** are computed in exact reals.

Where comments and code disagree the model follows the code:

* the heartbeat comment says a dropped connection leads to reconnection through the
  monitor. A drop under the state Connected can be noticed exactly if no loss was
  reported before (`ConnectionLosses.DropIsNoticedExactlyOnce`); a second drop stays
  unnoticed (`ConnectionLosses.SecondDropGoesUnnoticed`);
* `stop` can return with a live client. Called on a running manager it can do so exactly
  if some worker can still begin a connect attempt
  (`ConnectionStop.StopCanLeaveLiveClientExactlyIfRetryPossible`); once the run flag is
  cleared, exactly if an attempt is ahead, or a client is live that `stop` is too late to
  close (`ConnectionStop.StopLeavesLiveClientExactlyIfAttemptAhead`);
* the handle test that is to keep heartbeats single can create a second one under `stop`:
  when `stop` is called, exactly if heartbeats are enabled and a retry can come to the
  test, or is on its way to it (`ConnectionHandles.SecondHeartbeatExactlyIfRetryPossible`;
  a run is `ConnectionHandles.SecondHeartbeatCanAppear`);
* `stop` can return with a handle it has not joined, which the destructor then destroys
  joinable: exactly in those cases, or if there is no monitor yet and the first retry can
  still succeed (`ConnectionHandles.HandleLeftExactlyIfRetryPossible`; a run is
  `ConnectionHandles.StopCanLeaveAJoinableHandle`).

## Model

| member | source | states |
|---|---|---|
| Bits.PowerOfTwoTestIsExact | include/config.h:33-34 | for every n, `n > 0 && (n & (n-1)) == 0` holds exactly for the powers of two |
| Bits.MaskIsMod | include/spsc_queue.h:37 | masking with 2^k - 1, bit by bit, is reduction modulo 2^k |
| SpscModel.NextIndexWraps | include/spsc_queue.h:37 | the masked successor of a wrapped counter is the wrapped counter plus one, for every power-of-two capacity below 2^64 |
| SpscModel.FullTestIsExact | include/spsc_queue.h:36-41 | whatever coherent head_ is loaded, the push is refused exactly when that view shows capacity - 1 items |
| SpscModel.EmptyTestIsExact | include/spsc_queue.h:51-55 | whatever coherent tail_ is loaded, the pop fails exactly when that view shows no item |
| SpscModel.WriteSlotKeepsInv | include/spsc_queue.h:43 | the producer's slot write keeps the invariant of the step system |
| SpscModel.TakeSlotKeepsInv | include/spsc_queue.h:57 | so does the consumer's move out of a slot |
| SpscModel.StoreTailKeepsInv | include/spsc_queue.h:44 | so does the release store of tail_ |
| SpscModel.StoreHeadKeepsInv | include/spsc_queue.h:58 | so does the release store of head_ |
| SpscModel.RunKeepsInv | include/spsc_queue.h:35-60 | the invariant holds after every interleaving of steps with any coherent loads |
| SpscModel.PoppedThenRingIsAccepted | include/spsc_queue.h:35-60 | in every execution the popped items followed by the ring contents, read off by the ring's own indices, are the accepted items in order |
| SpscModel.NoDataRace | include/spsc_queue.h:36-58 | in every execution each slot access is in bounds and ordered after the other thread's last access to that slot; a write finds a blank slot, a take finds an item, and the two threads' pending slots differ |
| SpscModel.SizeOfDistance | include/spsc_queue.h:74 | unsigned 64-bit subtraction and mask recover the distance of two counters less than a lap apart |
| SpscModel.SizeSeenByProducer | include/spsc_queue.h:71-75 | called by the producer, size_approx never under-counts, is below the capacity, and is exact iff the head_ load is fresh |
| SpscModel.SizeSeenByConsumer | include/spsc_queue.h:71-75 | called by the consumer, size_approx never over-counts and is exact iff the tail_ load is fresh |
| SpscModel.EmptySeenByEitherSide | include/spsc_queue.h:62-65 | empty answers exactly for the calling side's view of the other index |
| SpscModel.SizeIsRightExactlyWithinALap | include/spsc_queue.h:71-75 | whoever calls size_approx, with any stores of tail_ and head_ loaded, it is their distance iff head_ is not ahead and less than a lap behind |
| SpscModel.SizeSeenByThirdThreadCanBeWrong | include/spsc_queue.h:71-75 | in a ring of any capacity from two up, a third thread can read capacity - 1 off an empty queue |
| SpscModel.IncoherentLoadLosesItems | include/spsc_queue.h:39-44 | without read-read coherence, in a ring of any capacity from two up, an accepted push can make a full ring look empty with a whole lap of items undelivered |
| SpscModel.PopCanMissAnItem | include/spsc_queue.h:51-55 | in a ring of any capacity from two up, a stale load of tail_ makes a pop fail with an item there |
| SpscModel.PushCanBeRefusedWithRoom | include/spsc_queue.h:36-41 | in a ring of any capacity from two up, a stale load of head_ refuses a push with a slot free |
| SpscModel.RelaxedStoreWouldRace | include/spsc_queue.h:44-57 | without the release clock of the tail_ store the first take races |
| SpscQueue.Queue.constructor | include/spsc_queue.h:25 | a new queue is empty |
| SpscQueue.Queue.Wrap | include/spsc_queue.h:78 | the mask sends the last index to zero and every other index to its successor |
| SpscQueue.Queue.TryPush | include/spsc_queue.h:35-46 | appends to the contents iff fewer than capacity - 1 items are queued, and says so |
| SpscQueue.Queue.TryPop | include/spsc_queue.h:50-60 | returns and removes the oldest item iff there is one |
| SpscQueue.Queue.Empty | include/spsc_queue.h:62-65 | true exactly when the contents are empty |
| SpscQueue.Queue.SizeApproximation | include/spsc_queue.h:71-75 | with no concurrent access the exact number of items |
| ClientModel.PoppedQueuedAndDropped | include/websocket_client.h:157-185 | in every run, popped followed by queued is the messages read minus the drops, in order; at most one message is undecided |
| ClientModel.DropsExactlyWhenViewIsFull | include/websocket_client.h:181-184 | a message is dropped iff the receiver's view shows capacity - 1 items |
| ClientModel.ClosedClientIsSilent | include/websocket_client.h:117-131 | after close has returned nothing more is read, pushed or dropped and is_running stays false, even if the receiver saw a stale run flag |
| ClientModel.FailedReadEndsReceiver | include/websocket_client.h:157-192 | after a failed read, or a run flag found clear, nothing more is read, pushed or dropped in any continuation, and once its thread has finished the client is not running |
| ClientModel.RunningExactlyWhileOpen | include/websocket_client.h:81-192 | in every run is_running is true exactly from the handshake until close is called or the receiver has ended |
| ClientModel.StepKeepsInv | include/websocket_client.h:68-192 | what every step of owner, receiver and consumer keeps |
| LockedQueue.DeliveredThenQueuedIsPushed | main.cpp:40-77 | in every run, delivered followed by queued is what was pushed |
| LockedQueue.NoLostWakeup | main.cpp:40-76 | whenever the mutex is free and the consumer blocked with no notification pending, the queue is empty |
| LockedQueue.LockProtectsTheQueue | main.cpp:41-76 | in every run the queue changes only under the lock of the thread that changes it |
| LockedQueue.ReadsAreQueuedAndCallsAnswered | main.cpp:40-77 | in every run the messages queued and the one in hand are the messages read, in order, and every call has delivered a message or still waits for one |
| LockedQueue.FailedReadEndsReceiver | main.cpp:61-79 | after a failed read nothing more is queued |
| LockedQueue.StepKeepsInv | main.cpp:40-77 | what every step of receiver and consumer keeps, spurious wakeups included |
| ReceiveRefinement.LockFreeRefinesLocked | include/websocket_client.h:99-184 | simulation: at every point of every run the locked run it stands for is a run of the locked queue, fed with the messages not dropped, that has delivered and holds the same messages; continuing the client continues that locked run |
| ReceiveRefinement.MatchStep | include/spsc_queue.h:35-60 | a store of tail_ is matched by exactly one whole queueing operation, a store of head_ by one whole delivery, every other step by nothing |
| ReceiveRefinement.BothDeliverPrefixes | main.cpp:61-77 | on one input stream, both paths deliver prefixes of it with the same text and binary tags when nothing is dropped |
| ReceivePath.ReceiveLoop | include/websocket_client.h:157-191 | the receiver loop alone queues arrivals, until a read fails or the run flag is clear, up to capacity - 1 held and counts the rest as dropped |
| ReceivePath.Drain | benchmarks/benchmark_client.cpp:63-68 | polling while messages arrive, the loop ends with the wanted number or is still waiting; received, held and dropped add up; with room for all none is dropped; with none dropped the received are the oldest, in order, and every poll finds one until all that had come by any earlier poll is received |
| EchoBench.RepliesInOrder | benchmarks/benchmark_client.cpp:40-47 | while nothing is refused the i-th message popped is the i-th of the unsolicited messages followed by the messages written |
| EchoBench.BurstIsNotRefused | benchmarks/benchmark_client.cpp:58-68 | with q messages outstanding a burst of n has no refused push in any interleaving if q + n <= capacity - 1, for exact and, in the receiver's own view, for any coherent loads |
| EchoBench.BurstBoundIsExact | benchmarks/benchmark_client.cpp:58-68 | some run with n messages sent has a refused push iff q + n > capacity - 1 |
| EchoBench.SequentialIsNotRefused | benchmarks/benchmark_client.cpp:40-47 | in send-then-receive mode, with coherent loads of head_ at most `lag` pops behind, nothing is ever refused if the ring has room for the unsolicited messages, one more and `lag` |
| EchoBench.StartIsIntact | benchmarks/benchmark_client.cpp:181-192 | a fresh client meets the hypotheses of these results |
| ConnectionModel.WorkerKeepsThreads | include/connection_manager.h:155-225 | a monitor or reconnect step keeps what is known of program counters and handles |
| ConnectionModel.WorkerKeepsShared | include/connection_manager.h:155-225 | and what is known of the state and the client pointer |
| ConnectionModel.OwnerKeepsShared | include/connection_manager.h:82-120 | a start or stop step keeps what is known of the state and the client pointer |
| ConnectionModel.StepKeepsInv | include/connection_manager.h:82-254 | every step of every thread, and every drop, keeps the invariant |
| ConnectionResults.ClosedIsFinal | include/connection_manager.h:105-120 | once stop has returned the state is Closed and stays Closed in every continuation, late-created threads included |
| ConnectionResults.RetryIsExclusive | include/connection_manager.h:139-222 | at most one thread is in the retry loop; every connect attempt finds a null client; the monitor discards only a dead client; Connected implies a client |
| ConnectionResults.JoinableThreadsAreNotReplaced | include/connection_manager.h:184-190 | whoever creates a thread, a worker under its own handle included, finds the handle not joinable; a joinable thread is moved by its own steps only |
| ConnectionResults.OneMonitorOneLoss | include/connection_manager.h:188-223 | every run creates at most one monitor and detects at most one loss; after the monitor's own reconnect the state stays Connected until stop and no worker is left |
| ConnectionResults.GivesUpAtTheLimit | include/connection_manager.h:159-169 | a limited retry gives up after exactly the allowed attempts, with the counter one past the limit |
| ConnectionResults.StateFollowsTheThreads | include/connection_manager.h:82-222 | before stop the state is a function of where the threads are; the worker in charge finishes connected again, or Disconnected with a null client after all allowed attempts (none without automatic reconnection, when nobody retries) |
| ConnectionResults.SomeoneIsInCharge | include/connection_manager.h:86-102 | with automatic reconnection a start that has returned, connected or not, leaves a monitor or reconnect worker |
| ConnectionResults.ClosingUntilClosed | include/connection_manager.h:105-120 | from its first store on stop shows Closing, or the last state a worker has stored since, until it returns and shows Closed |
| ConnectionResults.AtMostOneLateTry | include/connection_manager.h:109-200 | after the run flag is cleared at most one further connect attempt begins |
| ConnectionResults.StepLowersMeasure | include/connection_manager.h:158-246 | after the flag is cleared every thread step lowers a measure |
| ConnectionResults.StopReturnsAndWorkersFinish | include/connection_manager.h:105-120 | the threads then take at most 20 steps between them and can only come to rest with stop returned and all workers finished |
| ConnectionHeartbeat.AtMostOnePingOffTheAir | include/connection_manager.h:229-246 | while the manager is not both running and Connected at most one ping is sent |
| ConnectionHeartbeat.DeadClientIsNotPinged | include/connection_manager.h:237-240 | while no client is live nothing is pinged, but for a ping already past its test |
| ConnectionHeartbeat.LiveConnectionIsPinged | include/connection_manager.h:229-246 | while running, Connected and with a live client, and if no ping fails, the heartbeat never ends and pings with exactly every sixth of its steps |
| ConnectionHeartbeat.FailedPingIsTheLast | include/connection_manager.h:239-244 | after a ping that fails there is none until another heartbeat is created |
| ConnectionHeartbeat.HeartbeatEndsOffTheAir | include/connection_manager.h:230-236 | while not both running and Connected the heartbeat ends within eight of its steps |
| ConnectionHeartbeat.HeartbeatEndsWithoutClient | include/connection_manager.h:236-237 | while no client is live it ends within six of its steps |
| ConnectionStop.StopLeavesLiveClientExactlyIfAttemptAhead | include/connection_manager.h:109-178 | once the flag is cleared, stop can return with a live client iff a retry is past its run-flag test with its attempt ahead or a client is live that stop is too late to close |
| ConnectionStop.StopCanLeaveLiveClientExactlyIfRetryPossible | include/connection_manager.h:105-223 | a stop called on a running manager can return with a live client iff some worker can still begin, or is in, a connect attempt |
| ConnectionStop.StopCanLeaveALiveClient | include/connection_manager.h:105-120 | for every configuration with automatic reconnection, a run in which stop returns, state Closed, workers finished, with a live client left |
| ConnectionHandles.AtMostTwoHeartbeats | include/connection_manager.h:97-186 | a run creates at most one heartbeat before stop joins it and at most two ever, none if they are disabled |
| ConnectionHandles.SecondHeartbeatExactlyIfRetryPossible | include/connection_manager.h:105-223 | a stop called on a running manager can see a second heartbeat iff heartbeats are enabled and a retry can come to, or is on its way to, the test of the heartbeat handle |
| ConnectionHandles.SecondHeartbeatExactlyIfRetryAhead | include/connection_manager.h:111-186 | when stop comes to close the client, a second heartbeat can still appear iff there is a first one and a retry is on its way to the test of the heartbeat handle |
| ConnectionHandles.SecondHeartbeatCanAppear | include/connection_manager.h:115-186 | for every configuration with automatic reconnection and heartbeats, a run with a second heartbeat |
| ConnectionHandles.HandleLeftExactlyIfRetryPossible | include/connection_manager.h:105-223 | a stop called on a running manager can return with a joinable handle iff a second-heartbeat condition holds or there is no monitor yet and the first retry can still succeed |
| ConnectionHandles.HandleLeftExactlyIfRetryAhead | include/connection_manager.h:115-190 | the same when stop comes to close the client: iff a retry is on its way to create a heartbeat or the first monitor |
| ConnectionHandles.StopCanLeaveAJoinableHandle | include/connection_manager.h:75-120 | for every configuration with automatic reconnection, a run in which stop returns, all threads finished, with a handle not joined |
| ConnectionLosses.DropIsNoticedExactlyOnce | include/connection_manager.h:203-225 | a connection that has dropped under the state Connected can be noticed iff no loss was reported before |
| ConnectionLosses.FirstDropIsNoticedInEightSteps | include/connection_manager.h:184-213 | and then is noticed in every interleaving: eight steps of monitor and reconnect threads detect it unless stop is called |
| ConnectionLosses.SecondDropGoesUnnoticed | include/connection_manager.h:184-223 | for every configuration with automatic reconnection, a run that ends Connected with a dead client, not stopped, and nobody left to notice |
| Backoff.ReconnectLoop | include/connection_manager.h:155-200 | the loop's outcome, counter and delays: first success, exact limit or halt; delay k is the k-th backoff |
| Backoff.DelaysGrowToTheCap | include/connection_manager.h:195-198 | for multiplier at least one and no overflow at the cap every cast is defined and the delays never decrease and stay between initial and cap |
| Backoff.CastsAreDefinedExactlyIf | include/connection_manager.h:195-198 | for multiplier at least one every cast of the loop is defined iff the delay never moves or the cast is defined at the cap |
| Backoff.NextDelayIsLargest | include/connection_manager.h:195-198 | each delay is the largest whole number of milliseconds up to the cap that is at most the multiplier times the one before |
| Backoff.CapIsReachedExactlyIfDelayMoves | include/connection_manager.h:195-198 | the cap is reached within cap - initial steps and kept iff one step gains a millisecond or it starts there |
| Backoff.StuckAtInitial | include/connection_manager.h:196 | otherwise truncation keeps the delay at its initial value for ever |
| Backoff.DoublesUpToTheCap | include/connection_manager.h:154-198 | with multiplier two, delay k is min(initial * 2^k, cap) |
| Defaults.QueueCapacityIsGood | include/config.h:31-37 | the shipped capacity passes the test and meets the model's hypothesis |
| Defaults.BackoffIsGood | include/config.h:57-60 | the shipped backoff doubles from 100 ms and is 30 s from the tenth delay on |
| Defaults.PoolIsGood | include/config.h:43-44 | the shipped pool is well laid out wherever it is placed |
| PoolLayout.RoundsUpToAlignment | include/memory_pool.h:24-25 | the masked block size is the least multiple of the alignment that is at least the block size |
| PoolLayout.RoundingFailsOnlyByWrapping | include/memory_pool.h:24-25 | it is at least the block size iff the addition does not wrap |
| PoolLayout.RoundedLayoutIsValid | include/memory_pool.h:20-29 | with the static assertions, storage that fits the address space gives a layout all pool results apply to |
| PoolLayout.LinkRoundTrip | include/memory_pool.h:35 | a link written to memory is read back |
| PoolModel.AllocatePops | include/memory_pool.h:48-57 | allocate takes the first block off the in-memory list, and returns null iff it is empty |
| PoolModel.DeallocatePushes | include/memory_pool.h:60-68 | deallocate of an allocated block puts it first and keeps all other links |
| PoolModel.UserWriteKeepsFreeList | include/memory_pool.h:33-37 | writes within the first BlockSize bytes of an allocated block leave the free list as it is |
| PoolModel.UserWriteKeepsOtherBlocks | include/memory_pool.h:24-34 | and every byte of every other block |
| PoolModel.WriteIsReadBack | include/memory_pool.h:48-57 | what a holder writes within its block is what the block then holds |
| PoolModel.FreeListIsUnique | include/memory_pool.h:48-68 | the memory determines the free list |
| PoolModel.DeallocateUndoesAllocate | include/memory_pool.h:48-68 | returning a block at once restores the pool byte for byte |
| PoolModel.AllocateUndoesDeallocate | include/memory_pool.h:48-68 | the block returned last is handed out first, and the list is as before |
| PoolModel.DeallocateIsRightExactlyForAllocatedStarts | include/memory_pool.h:60-74 | for every pointer but null, whether owns accepts it or not, a free list still exists after deallocate iff it is the start of an allocated block |
| PoolModel.PoolIsPartitioned | include/memory_pool.h:48-68 | after any run of allocations, returns and user writes the free list and the pointers out partition the blocks, the counter is the list length, and allocate fails iff all blocks are out |
| PoolModel.FreshPoolAscends | include/memory_pool.h:32-40 | a fresh pool hands out blocks in ascending address order |
| MemoryPool.MemoryPool.constructor | include/memory_pool.h:28-40 | the linking loop builds the ascending list of all blocks |
| MemoryPool.MemoryPool.Allocate | include/memory_pool.h:48-57 | performs the allocation step in place; null iff the counter is zero, else a pointer nobody holds |
| MemoryPool.MemoryPool.Deallocate | include/memory_pool.h:60-68 | performs the return step in place, for null or a held pointer |
| MemoryPool.MemoryPool.Owns | include/memory_pool.h:70-74 | true of every address inside the storage |
| MemoryPool.PoolPtr.constructor | include/memory_pool.h:90 | allocates from the bound pool |
| MemoryPool.PoolPtr.Move | include/memory_pool.h:99-101 | the pointer moves and the source becomes null |
| MemoryPool.PoolPtr.Assign | include/memory_pool.h:103-110 | the held block goes back and the pointer moves; self-assignment does nothing; the pool is not rebound, so the handle is valid iff it received null or a different block of its own pool |
| MemoryPool.PoolPtr.Release | include/memory_pool.h:119-123 | the caller takes over the pointer |
| MemoryPool.PoolPtr.Destroy | include/memory_pool.h:92-96 | the held block goes back |
| MemoryPool.BenchLoop | src/main.cpp:104-121 | with one free block the loop completes for any number of messages, leaves the pool's counter and holders unchanged, and has taken a block, copied the message as far as it fits and returned the block for each |
| PoolHandles.MoveAssignIsRightWithinOnePool | include/memory_pool.h:103-110 | move-assignment keeps every block with exactly one owner bound to its pool iff it carries no block across pools |
| PoolHandles.ActionKeepsOwned | include/memory_pool.h:88-128 | construct, move, release, destroy and return all keep one owner for each block |
| PoolHandles.FreshWorldIsOwned | include/memory_pool.h:28-40 | a fresh pool without handles is a valid start |
| PoolHandles.OneOwnerInEveryRun | include/memory_pool.h:88-128 | over one pool, in every run each block out has exactly one owner and free plus out is the capacity |
| HandleObjects.Perform | include/memory_pool.h:88-128 | the handle objects perform exactly the actions of the ownership model and keep ownership |
| HandleObjects.PerformAll | include/memory_pool.h:88-128 | and so for every sequence of actions, with free plus out equal to the capacity |
| LatencyStats.PercentileAtPosition | include/latency_stats.h:101-110 | order statistic i sits at percentage 100 * i / (n - 1), and between neighbours the value moves in proportion |
| LatencyStats.PercentileAtTheEnd | include/latency_stats.h:102-106 | from 100 on, and for a single sample, it is the largest sample; of no samples it is zero |
| LatencyStats.PercentileIsMonotone | include/latency_stats.h:101-110 | the percentile is monotone in its percentage |
| LatencyStats.PercentileIgnoresOrder | include/latency_stats.h:57-69 | it does not depend on the recording order |
| LatencyStats.PercentileSplitsSamples | include/latency_stats.h:101-110 | with k = floor(pct / 100 * (n - 1)), at least k + 1 samples are at or below it and n - 1 - k at or above |
| LatencyStats.PercentilesAreOrdered | include/latency_stats.h:63-69 | min <= p50 <= p95 <= p99 <= p99.9 <= max |
| LatencyStats.TruncatedP99IsBelow | benchmarks/benchmark_client.cpp:150-151 | the benchmark's truncated p99 never exceeds the interpolated one |
| LatencyStats.TruncatedP99SplitsSamples | benchmarks/benchmark_client.cpp:150-151 | with k = floor(0.99 * (n - 1)), at least k + 1 samples are at or below the truncated p99 and n - k at or above |
| LatencyStats.Stats.RecordNs | include/latency_stats.h:39-41 | appends the sample |
| LatencyStats.Stats.Reset | include/latency_stats.h:47-49 | removes all samples |
| LatencyStats.Stats.Report | include/latency_stats.h:51-76 | extremes, mean, variance and percentiles of the samples as a multiset, with the mean between the extremes and the variance the mean of the squares less the squared mean |

## Left out

- WebSocket framing, handshake, TCP, DNS and TLS: foreign code; reads and connect results are arbitrary.
- include/secure_websocket_client.h: its receive, pop and close logic repeats include/websocket_client.h.
- Thread affinity and names, command line, prompts, report layout, sleeping as real time, spin hints, cache-line alignment.
- Pointer safety of the client pointer between its null test and its use in `stop` and in the heartbeat: the code does not guarantee it.
- Data races on the connection manager's plain fields (the counter, the client pointer, the handles): steps are interleaved one at a time.
- Repeated `start` calls and callbacks that call back into the manager; `close` before `connect`; exceptions between a successful read and its push.
- Liveness of `spin_receive` and `getResponse`: both wait for ever on a dead connection.
- 32-bit overflow of `reconnect_count_` when retries are unlimited; the counter is unbounded here.
- Floating-point rounding: reals are exact.
- LatencyStats.Stats.Report: gives the variance, not its square root.
- ReceivePath.ReceiveLoop: one thread at a time; concurrent consumption is the subject of ClientModel.
- SpscQueue.Queue.TryPop: the value left in a moved-from slot is unspecified.
- `to_string`, `make_payload`, the warm-up benchmark and the wait policies.
