# Verified models of the cache simulator, the forking merge sort and the chat server

Dafny models of the four hard components of the repository, with proofs about all inputs, all
schedules and all runs:

- **hw3, the cache simulator.** `CacheMachine` has the program's classes and loops; its methods are
  proved equal to the one-set functions of `CacheSet`, and a whole trace to `CacheRuns.Run`.
  `CacheOrder`, `ReplacementLists`, `CacheTheorems` and `CacheCosts` prove what these do: the integer
  ranks and timestamps refine a bounded queue and a move-to-front list, larger LRU caches include
  smaller ones, sets do not interfere, every cycle is accounted for and every counter counts what it
  is named for. `CacheDirty` says which blocks are dirty. `CacheRecency` keeps the true
  time of use beside each slot and says for how long, and for which traces, LRU still means it.
- **hw4, the parallel merge sort.** `MergeSort` is the array program of one process. `ForkTree` is the
  tree of processes over the shared mapping, one element per step, with failing forks, failing waits
  and processes killed at any step. `ForkSafety`, `ForkProgress` and `ForkCounts` prove what its steps
  keep; `ForkRuns` states what holds of every run.
- **hw5, the chat server.** `ChatServer` is a step machine for any number of sender and receiver
  threads with one program counter each, room locks, queue locks, semaphores and the server lock.
  `ChatSteps` proves that every step keeps its invariant; `ChatRuns`, `ChatProgress`, `ChatDelivery`,
  `ChatInputs` and `ChatLeaving` state what holds of every run. `QueueMachine` is the queue alone, with
  any number of producers and consumers. `ChatObjects` has the queue, room, server and a sender's session as mutable objects.
- **hw5, input and output.** `Rio` is the buffered reader and writer over a descriptor that may return
  any positive count, be interrupted or fail; `Messages` and `Connections` put the message framing on
  top; `Decoding` says what the receiver makes of any delivery; `Ltoa` is the integer printer.
  `ChatScreen` composes threads, framing and the receiver's decoding.

Data that a program only records for a proof (the broadcast log of a room, what a receiver was sent
and where it joined, what went in and out of a queue) is part of the machine's state but is never
read by a step.

`dafny verify dfyconfig.toml` checks the project.

## Where the code and its documentation differ

The model follows the code.

- `Message::MAX_LEN` (255) is never enforced; the only limit is the 8192-byte receive buffer
  (`hw5/csf_assign05/message.h:11`, `hw5/csf_assign05/connection.cpp:61-62`).
- `receive` keeps the newline in the data; a broadcast removes the first newline of each part.
- The receiver drops up to two parts of what stands behind the second colon
  (`hw5/csf_assign05/receiver.cpp:49-50`), whichever of room, name and text they belong to.
- Leaving keeps the thread's `room` variable, so a sender that has left can still broadcast
  (`hw5/csf_assign05/server.cpp:73-78`); it is told "not in a room" only before its first join.
- A store that misses into a full set installs a clean block even under write-back and is not charged
  the extra 100 cycles under write-through (`hw3/main.cpp:90-92`).
- From line 2^31 on, an install stores its time as a sign-extended `int` while a hit stores it whole
  (`hw3/cache_funcs.cpp:104,121`, `hw3/main.cpp:44`), so the timestamps no longer follow the order of
  use; and the LRU scan cuts the timestamp of slot 0 to 32 bits (`hw3/cache_funcs.cpp:108`).
- `num_elements` is an `unsigned`; a range of 2^32 elements or more is sorted in part or not at all.
- `dequeue` reads `empty()` without the lock; it is one atomic read here, proved never to find the
  queue empty.

## Model

| member | source | states |
|---|---|---|
| MergeSort.MergeInto | hw4/csf_assign04/parsort.c:32-55 | the three pointers leave in the buffer the stable merge of the two ranges |
| MergeSort.MergeFromMerges | hw4/csf_assign04/parsort.c:37-54 | what the pointers still have to copy is the list merge of what is left of the two runs |
| MergeSort.CopyBack | hw4/csf_assign04/parsort.c:107-109 | the range becomes the buffer and nothing outside it changes |
| MergeSort.MergeSort | hw4/csf_assign04/parsort.c:58-115 | in place, with every child succeeding: the range becomes its sort, nothing outside changes |
| MergeSort.WidthsAre | hw4/csf_assign04/parsort.c:60-62 | the element count is the length cut to 32 bits; the machine's limit is 2^31 elements when it forks and 2^32 when a leaf |
| SortedSeq.SortSorts | hw4/csf_assign04/parsort.c:13-27 | the specification sort is a sorted permutation |
| SortedSeq.SortOfUnique | hw4/csf_assign04/parsort.c:58-65 | any sorted permutation equals it, so the library sort may be any |
| SortedSeq.MergeOfSorts | hw4/csf_assign04/parsort.c:105 | merging the sorts of two halves gives the sort of the whole |
| ForkSafety.ProcessStepKeeps | hw4/csf_assign04/parsort.c:58-115 | every step of any process, or its death, keeps the tree's invariant and writes only inside the range |
| ForkSafety.StepWritesOwned | hw4/csf_assign04/parsort.c:63-109 | a step writes at most in the range of one running activation |
| ForkSafety.RunningDisjoint | hw4/csf_assign04/parsort.c:72-83 | activations that run at once own disjoint ranges |
| ForkProgress.FailureSticks | hw4/csf_assign04/parsort.c:91-103 | no step undoes a failure anywhere in the tree |
| ForkTree.AnythingFails | hw4/csf_assign04/parsort.c:71-103 | at any step a process may die, and where it would fork the fork may fail instead, with nothing written |
| ForkTree.ChildrenOutlive | hw4/csf_assign04/parsort.c:71-103 | a death takes no child along |
| ForkProgress.Progress | hw4/csf_assign04/parsort.c:58-115 | a process that has neither returned nor died can step without a new failure |
| ForkProgress.StepWork | hw4/csf_assign04/parsort.c:58-115 | every step, deaths included, lowers a measure |
| ForkCounts.StepForks | hw4/csf_assign04/parsort.c:62-86 | forks made and forks to come keep their sum unless a process failed, and never exceed it |
| ForkCounts.ForkedHalves | hw4/csf_assign04/parsort.c:71-86 | a fork gives the child the lower half and leaves the parent the upper, the middle element in the upper |
| ForkCounts.ForkCountBounds | hw4/csf_assign04/parsort.c:60-86 | leaves hold between floor((t+1)/2) and t elements, one each for t = 0 |
| ForkRuns.ScheduleIndependence | hw4/csf_assign04/parsort.c:58-115 | in every interleaving, a root that returns leaves the sort of the range and the rest untouched |
| ForkRuns.NothingOutside | hw4/csf_assign04/parsort.c:58-115 | at every point of every run, nothing outside the range has been written |
| ForkRuns.OwnersDisjoint | hw4/csf_assign04/parsort.c:72-86 | at every point of every run, running activations own disjoint ranges |
| ForkRuns.WritesOwnedInRun | hw4/csf_assign04/parsort.c:63-109 | each step of a run writes at most in one of those ranges |
| ForkRuns.RunsEnd | hw4/csf_assign04/parsort.c:58-115 | the length of every run is bounded before it starts |
| ForkRuns.HonestExit | hw4/csf_assign04/parsort.c:71-103 | a root that returns saw no failure in the whole tree; at rest it has returned exactly when nothing failed, and otherwise died |
| ForkRuns.ForksOfRun | hw4/csf_assign04/parsort.c:60-86 | a root that returns made exactly the forks its recursion asks for; no run makes more |
| ForkRuns.ForksBetween | hw4/csf_assign04/parsort.c:60-86 | they are at least ceil(n/t)-1 and at most floor(n/floor((t+1)/2))-1, and n-1 for t = 0 |
| ForkRuns.LeafSortsIffFits | hw4/csf_assign04/parsort.c:60-70 | when the root is a leaf or returns at once by its truncated count, every run sorts if and only if the length is below 2^32 |
| ForkRuns.UnsortedRun | hw4/csf_assign04/parsort.c:60-70 | a run on 2^32 or more elements, by either early return, that ends with the array unsorted |
| CacheMachine.Cache.constructor | hw3/Cache.h:26-47 | all slots of all sets cold, block cost 100 * (bytes / 4) |
| CacheMachine.Cache.SlotExists | hw3/cache_funcs.cpp:14-23 | the first valid slot with the tag |
| CacheMachine.Cache.IsCacheFull | hw3/cache_funcs.cpp:25-35 | true exactly when all slots are valid |
| CacheMachine.Cache.IsCacheEmpty | hw3/cache_funcs.cpp:36-45 | true exactly when no slot is valid |
| CacheMachine.Cache.RankForFill | hw3/cache_funcs.cpp:47-102 | the three in-place rank updates of a fill; slot 1 is in bounds whenever it is read |
| CacheMachine.Cache.FindLru | hw3/cache_funcs.cpp:107-115 | the scan for the least timestamp |
| CacheMachine.Cache.FindFifo | hw3/cache_funcs.cpp:127-134 | the scan for the highest rank |
| CacheMachine.Cache.EvictionFunction | hw3/cache_funcs.cpp:104-153 | both replacements in place, and the charge for a dirty victim |
| CacheMachine.Cache.WriteThrough | hw3/cache_funcs.cpp:156-179 | the first free slot takes the block |
| CacheMachine.Simulator.LoadHitOrMiss | hw3/main.cpp:38-61 | a load on the real state is the one-set access, in slots, cycles and outcome |
| CacheMachine.Simulator.StoreHitOrMiss | hw3/main.cpp:64-115 | a store likewise, for all write policies |
| CacheMachine.Simulator.Simulate | hw3/main.cpp:229-269 | the loop over the trace ends in the state that the run of the model gives |
| CacheTheorems.CountersCount | hw3/main.cpp:249-264 | on every trace: loads is the number of load lines, load hits the number of those that hit the state left by the lines before them, load misses the rest; the same of stores |
| CacheAddress.BitTestIffPow2 | hw3/main.cpp:129-131 | the bit test passes exactly on powers of two |
| CacheAddress.Log2 | hw3/main.cpp:144-150 | the shifting loop gives k with 2^k at most the argument, below 2^(k+1) |
| CacheAddress.SameBlockIff | hw3/main.cpp:240-243 | two addresses share tag and index exactly when they are in the same block |
| CacheAddress.AddressParts | hw3/main.cpp:240-243 | the 32-bit address is (tag * sets + index) * block bytes + offset, so the index is the block number modulo the sets |
| CacheOrder.LruVictimLeast | hw3/cache_funcs.cpp:107-115 | while slot 0 has a 32-bit timestamp, the victim is the last slot with the least stored timestamp |
| CacheSet.AsIntSignExtends | hw3/cache_funcs.cpp:104-122 | a timestamp passed as `int` is the number of the same 32 low bits between -2^31 and 2^31 - 1, read again as 64 bits |
| CacheOrder.LruKeepsRanks | hw3/cache_funcs.cpp:105-124 | an LRU eviction leaves every load_ts as it was |
| CacheRecency.RunTimed | hw3/main.cpp:232-269 | on every trace, however long, each valid slot stores its true time of use or what an `int` makes of it, and no two were used at once |
| CacheRecency.LruVictimOldestIff | hw3/cache_funcs.cpp:104-115 | at any time, the block truly least recently used goes exactly when its scan key (slot 0 cut to 32 bits) precedes all others |
| CacheRecency.LruVictimKeptIff | hw3/cache_funcs.cpp:104-122 | in the first 2^32 lines, exactly when that block is in slot 0 or was not last installed at 2^31 or later |
| CacheRecency.OldestEvicted | hw3/cache_funcs.cpp:104-124 | with n slots, every eviction up to line 2^31 + n - 1 takes the least recently used block |
| CacheRecency.NewestEvicted | hw3/cache_funcs.cpp:104-124 | two slots, load A, idle lines, load B at 2^31, load A: the next miss evicts A, the block used last |
| CacheRecency.NewestEvictedByCut | hw3/cache_funcs.cpp:108 | two slots, two early loads, slot 0 used again at 2^32: the next miss evicts it |
| CacheRecency.LruOrderIff | hw3/cache_funcs.cpp:104-124 | all traces of L lines leave every LRU set in its order of use if and only if L is at most 2^31, or a set can never hold two blocks |
| CacheOrder.LruRefines | hw3/main.cpp:38-115 | an access to an LRU set is one move-to-front step on its tags by decreasing access_ts, and hits exactly on the listed tags |
| CacheOrder.FifoFill | hw3/cache_funcs.cpp:47-102 | each of the three fill cases keeps the ranks a rotation of 0..n-1 and appends the tag to the queue |
| CacheOrder.FifoEvict | hw3/cache_funcs.cpp:125-152 | an eviction keeps the ranks a rotation, drops the oldest tag and appends the new one |
| CacheOrder.FifoVictimOldest | hw3/cache_funcs.cpp:127-134 | the victim is the head of the queue |
| CacheOrder.AccessHit | hw3/main.cpp:39-47 | a hit changes only times of use and dirty bits |
| CacheOrder.FifoRefines | hw3/main.cpp:38-115 | an access to a FIFO set is one step of a bounded queue, and hits exactly on the queued tags |
| CacheOrder.OrderUnique | hw3/cache_funcs.cpp:104-134 | only one listing of the valid slots has decreasing keys |
| CacheTheorems.LruOrder | hw3/cache_funcs.cpp:104-124 | on every trace of at most 2^31 lines the valid tags by decreasing access_ts are the move-to-front list of that set's lines |
| CacheTheorems.FifoQueue | hw3/cache_funcs.cpp:47-102 | on every trace, of any length, load_ts is a permutation of 0..n-1 once a block is held, and the tags by decreasing load_ts are the bounded queue |
| CacheTheorems.SetsIndependent | hw3/main.cpp:240-269 | each set is, up to an order-preserving change of times, the one-set cache fed that set's lines |
| CacheTheorems.HitsIndependent | hw3/main.cpp:249-264 | each hit or miss is the one the one-set cache reports |
| CacheTheorems.CyclesAreSum | hw3/main.cpp:232-269 | total_cycles is the sum over the sets run alone |
| CacheTheorems.LruInclusion | hw3/cache_funcs.cpp:104-124 | at every step a larger LRU set holds every tag of the smaller, under every write policy |
| CacheTheorems.LruHitsIncluded | hw3/main.cpp:38-115 | every hit of the smaller cache is a hit of the larger |
| CacheTheorems.LruMoreSlotsMoreHits | hw3/main.cpp:249-264 | the smaller cache's hit counters never exceed the larger's |
| ReplacementLists.LruInclusionStep | hw3/cache_funcs.cpp:104-124 | one step keeps the smaller recency list a subsequence of the larger, equal to it or full |
| CacheCosts.CyclesAccounted | hw3/main.cpp:38-115 | total_cycles is the sum of hit, install, dirty eviction and write-through charges over the trace |
| CacheCosts.DirtyConserved | hw3/cache_funcs.cpp:116-144 | dirty evictions plus resident dirty slots equal the clean-to-dirty changes, at most the stores, none under write-through |
| CacheCosts.StoreLeavesDirtyIff | hw3/main.cpp:90-92 | exactly when a store leaves its block dirty: not after an eviction |
| CacheDirty.DirtyStays | hw3/main.cpp:38-115 | after any access at any time, a held block is dirty exactly when it was dirty before or is the one that a write-back store just hit or put into a free slot |
| CacheDirty.DirtyAreTags | hw3/main.cpp:38-115 | on every trace, a set's dirty blocks are those of the list machine that a write-back store hit or put into a free slot and that have not been evicted since |
| CacheCosts.WritePolicyIndependent | hw3/main.cpp:64-115 | under write-allocate both write policies keep the same tags, valid bits, times, ranks and counters on every trace |
| Rio.RioWriten | hw5/csf_assign05/csapp.c:781-798 | short writes and interrupts: all bytes in order, or a proper prefix and -1, exactly when a call that it made failed |
| Rio.RioReadn | hw5/csf_assign05/csapp.c:755-774 | short reads and interrupts: the first n bytes of the stream or all that is left, and -1 exactly when a call failed; the array is as it was outside |
| Rio.Reader.constructor | hw5/csf_assign05/csapp.c:843-848 | an empty buffer: the unread stream is the descriptor's |
| Rio.Reader.RioRead | hw5/csf_assign05/csapp.c:811-836 | the bytes given and the unread stream together are the unread stream before; 0 only at its end, -1 exactly when a call failed |
| Rio.Reader.RioReadnb | hw5/csf_assign05/csapp.c:855-870 | the first n unread bytes, however the reads are cut, and -1 exactly when a call failed |
| Rio.Reader.RioReadlineb | hw5/csf_assign05/csapp.c:877-899 | a line up to the first newline, maxlen-1 bytes or the end, NUL-terminated, nothing lost; -1 exactly when a call failed; the array is as it was outside |
| Rio.LineEnds | hw5/csf_assign05/csapp.c:882-892 | the loop's three ways to stop are the definition of a line |
| Rio.RepliesPartition | hw5/csf_assign05/csapp.c:855-899 | the replies to any requests and the rest are the stream: nothing lost, repeated or reordered |
| Rio.Serve | hw5/csf_assign05/csapp.c:855-899 | any mix of lines and blocks gets what the unsplit stream gives, for any cut and any interrupts |
| Messages.RoundTripIff | hw5/csf_assign05/message.h:38-48 | a message is received with just a newline more if and only if its tag has no colon, it has no newline or NUL, and it fits the buffer |
| Messages.ColonlessReceived | hw5/csf_assign05/message.h:38-48 | a line without a colon becomes the tag, without its last character, and the whole data |
| Connections.Exchange | hw5/csf_assign05/connection.cpp:47-71 | a sequence of such messages, sent through any short writes and interrupts and received over any cut of the stream, arrives whole and in order |
| Messages.StreamRoundTrip | hw5/csf_assign05/connection.cpp:47-71 | on strings: the messages received from the joined encodings are those encoded, whatever follows |
| Decoding.PrintedIff | hw5/csf_assign05/receiver.cpp:44-54 | for any room, user and text, the receiver prints "user: text" if and only if their parts between colons meet a stated condition: no colons in user and text, and none in the room or the user's name behind its first of at most two; or one exotic case |
| Messages.EndToEnd | hw5/csf_assign05/room.cpp:50-71 | what the server receives from login, join and post, broadcast, sent on and decoded, prints as "user: text" |
| Messages.StripFirst | hw5/csf_assign05/room.cpp:53-67 | the first newline goes, any other stays |
| Decoding.BroadcastParts | hw5/csf_assign05/room.cpp:51-71 | the parts of a delivery are the room, the user and the text, in this order |
| Decoding.DeliveryParts | hw5/csf_assign05/room.cpp:51-71 | and so they are when it comes off the wire |
| Decoding.EncodedParts | hw5/csf_assign05/connection.cpp:47-52 | the parts of an encoding are those of the tag and then those of the data |
| Messages.ShownColonless | hw5/csf_assign05/receiver.cpp:44-54 | what the receiver makes of a delivery with no colon or one |
| Connections.Connection.Send | hw5/csf_assign05/connection.cpp:47-58 | the encoding goes out whole, however the writes are cut; false exactly when a write failed |
| Connections.Connection.Receive | hw5/csf_assign05/connection.cpp:60-71 | takes one line off the stream; false, with the message as it was, exactly at the end or when a read failed |
| Connections.PrintDeliveries | hw5/csf_assign05/receiver.cpp:39-63 | the loop prints exactly the deliveries among the first messages of the stream, in order, and all of them unless a read failed |
| Connections.PostsPrinted | hw5/csf_assign05/receiver.cpp:44-54 | a stream of a room's deliveries prints one "user: text" line per post, in order |
| Ltoa.Ltoa | hw5/csf_assign05/csapp.c:244-261 | the array holds sign, digits and NUL in order, within 128 bytes, for bases 2 to 36; the text parses to the number; the rest of the array is as it was |
| Ltoa.Reverse | hw5/csf_assign05/csapp.c:232-241 | reverses the text before the NUL in place |
| Ltoa.Strlen | hw5/csf_assign05/csapp.c:264-271 | the place of the first NUL |
| Ltoa.PrintedParses | hw5/csf_assign05/csapp.c:244-261 | parsing the printed text gives the number back |
| Ltoa.DigitIs | hw5/csf_assign05/csapp.c:250-252 | the digits are 0 to 9 and then a to z |
| Ltoa.SignIff | hw5/csf_assign05/csapp.c:254-258 | a minus stands first exactly for a negative number, and nowhere else |
| Ltoa.NoLeadingZero | hw5/csf_assign05/csapp.c:250-253 | the first digit is 0 only for the number 0 |
| Ltoa.DigitsShort | hw5/csf_assign05/csapp.c:250-253 | a number below 2^k has at most k digits in any base |
| QueueMachine.StepInv | hw5/csf_assign05/message_queue.cpp:26-62 | every step of any producer or consumer keeps the queue's invariant |
| QueueMachine.QueueMatchesSemaphore | hw5/csf_assign05/message_queue.cpp:26-62 | queue length is semaphore plus unspent tokens plus the unposted push; enqueued is popped followed by queued |
| QueueMachine.CallsAdded | hw5/csf_assign05/message_queue.cpp:26-34 | in every run, what a thread asked to enqueue is what it pushed, in order, and what it has still to push |
| QueueMachine.PoppedIsOldest | hw5/csf_assign05/message_queue.cpp:54-61 | each pop takes the oldest message, and the popping thread returns that one |
| QueueMachine.SuccessfulWaitPops | hw5/csf_assign05/message_queue.cpp:50-61 | a wait that succeeds always pops: the queue is not empty at the unlocked test nor at the pop |
| QueueMachine.HolderSteps | hw5/csf_assign05/message_queue.cpp:26-62 | whoever holds the queue's lock can step |
| ChatSteps.EveryStepKeeps | hw5/csf_assign05/server.cpp:42-144 | every step of every thread, with any choice of the client, the clock and the set order, keeps the server's invariant |
| ChatSteps.StartKeeps | hw5/csf_assign05/room.cpp:45-50 | starting a broadcast keeps the invariant, logs it and makes it pending for every member |
| ChatSteps.ReachedHeard | hw5/csf_assign05/room.cpp:50-73 | passing over or enqueuing for a member completes the broadcast for that member |
| ChatSteps.TakeHeard | hw5/csf_assign05/server.cpp:114-126 | popping and sending move a message on without losing or repeating one |
| ChatRuns.BroadcastsHeard | hw5/csf_assign05/room.cpp:45-76 | in every run: sent, in hand and queued are the room's log since the join without the receiver's own name, but for a broadcast in progress |
| ChatRuns.AllDelivered | hw5/csf_assign05/server.cpp:114-134 | with nothing under way, a receiver was sent exactly that |
| ChatRuns.PlacesOf | hw5/csf_assign05/room.cpp:45-76 | each message got is one entry of the log, every entry to be heard is got, in order and once |
| ChatRuns.SameOrder | hw5/csf_assign05/room.cpp:45-76 | any two receivers of a room get the broadcasts common to both in the same order, each once |
| ChatRuns.PostsBroadcastOnce | hw5/csf_assign05/server.cpp:84-94 | the accepted posts of a sender are what it logged, in order, followed by the one under way |
| ChatRuns.LogsOnlyBroadcasts | hw5/csf_assign05/room.cpp:45-49 | a room's log grows only by a user that keeps that room, one entry at a time |
| ChatRuns.RunGrows | hw5/csf_assign05/server.cpp:104-141 | rooms and names stay, logs and what was sent only grow, a joined receiver stays joined |
| ChatRuns.QueuesMatchSemaphores | hw5/csf_assign05/message_queue.cpp:26-62 | in the whole server, each queue agrees with its semaphore, and a token always finds a message |
| ChatRuns.RoomsUnique | hw5/csf_assign05/server.cpp:274-288 | over the whole run equal names mean the same room, and a member's own room variable names the room it is in |
| ChatRuns.MemberIff | hw5/csf_assign05/room.cpp:33-43 | a user is in a room exactly when it keeps that room and its last change was a join |
| ChatRuns.RoomIff | hw5/csf_assign05/server.cpp:84-90 | a sender has a room to post to exactly when it has ever found one |
| ChatLeaving.RunAgrees | hw5/csf_assign05/server.cpp:59-82 | membership is what the last join or leave asked for, but for the steps in which the thread is at work on it |
| ChatLeaving.CasterIsMemberIff | hw5/csf_assign05/server.cpp:73-90 | a broadcasting sender is in the room exactly when the last join or leave that its client asked for was a join |
| ChatLeaving.BroadcastAfterLeave | hw5/csf_assign05/server.cpp:73-90 | a run in which a sender that left its room broadcasts there, and goes on until the receiver in the room was sent it |
| ChatProgress.LockOrder | hw5/csf_assign05/room.cpp:33-71 | in every run, by the lock fields: the server's lock is held alone, its holder and a queue's want no lock, a room's holder wants at most a queue's, inside a broadcast; and nobody holds a lock in the timed wait |
| ChatProgress.OneOfEach | hw5/csf_assign05/room.cpp:33-71 | no thread holds two rooms' locks or two queues' |
| ChatProgress.NoDeadlock | hw5/csf_assign05/server.cpp:42-141 | every thread is idle, can step, or waits for a lock whose holder, or the holder that one waits for, can step |
| ChatProgress.SectionsEnd | hw5/csf_assign05/room.cpp:45-73 | each step with a lock lowers a bound on the steps left until all locks are given up |
| ChatDelivery.StepNearer | hw5/csf_assign05/server.cpp:42-141 | every step but a new request or a timeout lowers a bound on all that is left to do |
| ChatDelivery.EverythingArrives | hw5/csf_assign05/server.cpp:104-141 | every run can go on, without new requests, until nothing is left to do, and then every receiver was sent all it is to hear |
| ChatInputs.RunFrom | hw5/csf_assign05/server.cpp:46-98 | in every run, rooms bear names that some request asked for and logs hold posts that users asked for, under their own names |
| ChatInputs.RunNamed | hw5/csf_assign05/server.cpp:59-72 | in every run, a thread keeps the room that it last asked for by name, or is at work on getting there |
| ChatInputs.MembersAsked | hw5/csf_assign05/server.cpp:59-72 | outside a join, a member of a room asked for that room's name last |
| ChatInputs.CasterAsked | hw5/csf_assign05/server.cpp:84-94 | a post goes to the room whose name its sender asked for last |
| ChatInputs.StoppedIff | hw5/csf_assign05/server.cpp:79-83 | a thread has stopped exactly when its client asked it to quit |
| ChatScreen.HeardPosts | hw5/csf_assign05/room.cpp:51-71 | what is heard of a log is the posts of others, each as its delivery |
| ChatScreen.ReceiverPrintsRoom | hw5/csf_assign05/receiver.cpp:39-63 | at every point of every run with plain names and texts, what a receiver has read, the two replies included, shows the first of the posts of others since it joined, each once, in room order; once all is delivered, all of them |
| ChatObjects.MessageQueue.Enqueue | hw5/csf_assign05/message_queue.cpp:26-34 | appends the message and posts |
| ChatObjects.MessageQueue.Dequeue | hw5/csf_assign05/message_queue.cpp:36-62 | takes the oldest message; none exactly on a timeout or an empty queue |
| ChatObjects.Room.AddMember | hw5/csf_assign05/room.cpp:33-37 | adds the user and nothing else |
| ChatObjects.Room.RemoveMember | hw5/csf_assign05/room.cpp:39-43 | removes the user and nothing else |
| ChatObjects.Room.BroadcastMessage | hw5/csf_assign05/room.cpp:45-76 | each member of another name gets one delivery at the end of its queue; no other queue changes |
| ChatObjects.Server.FindOrCreateRoom | hw5/csf_assign05/server.cpp:274-288 | the one room of that name, made only if there is none |
| ChatObjects.Session.Join | hw5/csf_assign05/server.cpp:59-72 | out of the old room and into the new, with all other memberships as they were |
| ChatObjects.Session.LeaveRoom | hw5/csf_assign05/server.cpp:73-82 | out of the room, which stays kept |
| ChatObjects.Session.Serve | hw5/csf_assign05/server.cpp:46-98 | for every request: the reply, the room kept, all memberships and all queues afterwards; the user stays in at most one room |
| ChatObjects.ServeClient | hw5/csf_assign05/server.cpp:46-98 | for what the wire delivers: "join" leaves the user in the room named, "leave" in none, "quit" ends the loop, "sendall" puts the delivery at the end of the queue of each other member; the tag of the reply is "err" exactly for a refused request |
| ChatObjects.ServeNothing | hw5/csf_assign05/server.cpp:46-52 | a failed receive is answered with "err" and ends the loop, with nothing changed |

## Left out

- hw3: argument parsing, text output and `cache_map`, which is written and never read.
- hw3: counters, ranks, timestamps and cycles that pass 64 bits.
- CacheTheorems.LruInclusion: needs at most 2^31 lines, as the order of use does; CacheRecency says what the policy does beyond.
- CacheTheorems.SetsIndependent: needs fewer than 2^31 lines, also for FIFO; beyond, an install in the cache and one in the set alone may store times on different sides of 2^31.
- CacheDirty.DirtyAreTags: under LRU needs at most 2^31 lines, as the recency list does; CacheDirty.DirtyStays holds at any time.
- CacheCosts.CyclesAccounted: excludes write-back without write-allocate, which the command line refuses.
- hw3: the slots of a set are a sequence that the methods reassign, so pointers into a set are indices.
- hw4: `mmap`, `open`, `fstat`, `malloc` failures and the inside of the library sort; while it runs, the library sort may leave anything in its own range, in a bounded number of writes.
- ForkRuns.ScheduleIndependence: when the range forks, needs fewer than 2^31 elements, because the `int` index of the copy-back overflows beyond; leaves may be longer, up to 2^32 - 1.
- MergeSort.MergeSort: runs the child's half in the same process; the processes are in the fork machine.
- MergeSort.LeafSort: is an insertion sort in the place of the library sort.
- hw4: the data generator and the checker programs.
- hw5: the deletes of rooms at the end of a worker and of client data after a thread starts; rooms, users and connections live for the whole run.
- hw5: sockets, name lookup, the accept loop, thread creation and real time; a timed wait succeeds when the semaphore allows it or times out at any moment.
- hw5: replies in the step machine (the session object has a sender's, the screen theorem a receiver's two), failing sends to a receiver, and clients that vanish while their thread waits.
- hw5: the capitalised wrappers of `csapp.c`, the sender's terminal loop, the trim helpers, `messageToBuffer` and the never-read `inRoom`.
- Ltoa.Ltoa: excludes the least 64-bit number, whose negation overflows.
- ChatObjects.Session: its methods, like the other objects', run without interference; what other threads see in between is in the step machine, and nothing here proves the two equal.
- ChatObjects.MessageQueue.Dequeue: is one call; the machines split it into wait, unlocked test, lock and pop.
- ChatDelivery.EverythingArrives: gives one continuation; that a fair scheduler must take one is not stated.
- Memory orders: every read and write of shared data is one step, the unlocked `empty()` included.
