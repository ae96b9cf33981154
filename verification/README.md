# A verified model of the server's queues, event loop, buffers and codecs

This project models, in Dafny, the parts of the repository whose correctness is hardest to see
from the code, and proves what they are for:

- the lock-free queue of `examples/tstlesrv/concurrentqueue.h`: its free list, its claim
  protocol, its explicit and implicit producers with their block indexes, and the hash of
  implicit producers;
- the wake-up protocols of `muduo`: the event loop's task queue with its eventfd, the bounded
  blocking queue and the thread pool;
- the path from received bytes to messages: `muduo::net::Buffer` and the frame transport;
- codecs and calendar arithmetic: UTF-8 and UTF-16 conversion, integer printing and parsing,
  Julian day numbers and broken-down UTC time.

## How concurrency is modelled

Code that threads run concurrently is a state machine on values: a state holds the shared memory
and, for each thread, where it is and its local variables; an event is one atomic access, one
stretch under a mutex, or a plain access to memory that others also touch. Any number of threads
interleave, for any number of steps, under sequential consistency. Histories that only the proofs
need (the list of listed nodes, the log of dequeue attempts, the items put in and delivered) are
kept beside the memory and never decide what a step does. For each machine `InvKept` shows that
every step keeps the invariant and `EveryReachableStateIsSound` lifts this to all runs; the other
theorems are about all runs or about all states with the invariant. What was put in, queued or asked
for is read off the events of a run, that is off what callers passed, not off what a step recorded.

A run of the claim protocol, and of the queues on top of it, is one in which no dequeue compares
counters that lie half the 64-bit range or more apart (`Claims.InWindow`): the source's circular
comparison means nothing beyond that. `Claims.ModerateTrafficStaysInWindow` and the two
`ModerateTrafficIsARun` derive this from the traffic alone: it holds of everything the code does as
long as, from the first to the last look of each dequeue at the counters, fewer than 2^63 items were
in the queue or came in and the dequeues open meanwhile were after at most 2^63 items. A run of the
implicit queue is moreover one in which no dequeue claims 0 items, which
`ImplicitQueueTheorems.ModerateTrafficIsARun` derives from no bulk dequeue asking for 0; what happens
otherwise is the first finding below.

Words of the source are explicit: 32-bit reference words and 64-bit indices wrap (`Words.Word`),
masks and shifts appear as remainders and quotients. Outside that, what the source stores in an
`int` is an integer, and range conditions say where it fits.

Code that one thread runs on its own objects has the source's own form: `ByteBuffer.Buffer`,
`FrameTransport.Transport`, `TextConversion.TextIterator` and `BoundedBlockingQueue.Monitor` are
classes, the index copies, converters, `ToUtcTime`, `IntToStr` and `StrToInt` are methods with
the source's loops, each tied to a function or predicate that the theorems are about.

## Files

| file | content |
|---|---|
| `FreeList.dfy` | the free list of blocks |
| `Arithmetic.dfy`, `Collections.dfy` | quotients, remainders and powers of two; options, sets and maps |
| `Words.dfy`, `BlockIndex.dfy`, `Fifo.dfy` | circular comparison of words; slots of a circular index; the plain queue that is refined |
| `Claims.dfy` | tail, head, optimistic count and overcommit |
| `ExplicitQueue*.dfy` | one explicit producer and its consumers: model, invariant, proofs for consumer and producer steps, theorems about runs, theorems about single calls |
| `ImplicitQueue*.dfy` | the same for an implicit producer |
| `EmptyBulkDequeue.dfy` | what a bulk dequeue asked for 0 items does to an implicit producer |
| `IndexGrowth.dfy` | the two copy loops that enlarge a block index |
| `ProducerHash*.dfy` | the hash from threads to implicit producers, and its calls |
| `EventLoop.dfy`, `Condition.dfy`, `BoundedBlockingQueue.dfy`, `ThreadPool.dfy` | wake-up protocols |
| `NetworkOrder.dfy`, `Buffer.dfy`, `Framing.dfy`, `FrameTransport.dfy` | from bytes to messages |
| `Utf8.dfy`, `TextConversion.dfy`, `TextTheorems.dfy` | text encodings |
| `Calendar.dfy`, `UtcTime.dfy`, `NumericString.dfy` | dates, UTC time, integers as text |

## Findings

Where a property one might expect does not hold of the code, the model keeps the code and the
project proves where the line is.

- A bulk dequeue asked for 0 items of an implicit producer that has some claims none of them, but
  goes through its loop once: it looks up the block at the head, adds 0 to its count and, finding the
  count full, nulls the entry and gives the block back. If another dequeue completed that count, the
  block goes to the free list twice (`EmptyBulkDequeue.GivenBackTwice`); if the head is where no block
  has been entered yet, the lookup's assertion fails (`EmptyBulkDequeue.LooksUpNothing`). Both are
  impossible exactly when no bulk dequeue asks for 0: `EmptyBulkDequeue.ReturnedOnceUnlessZero`,
  `EmptyBulkDequeue.LookupSoundUnlessZero`.
- A functor that the loop's own thread queues outside `loop()` wakes nobody: from every such state
  the loop comes to poll with it pending, and a wake-up is due then exactly if one was due before
  (`EventLoop.QueuedOutsideWakesNobody`); in a fresh loop none is (`EventLoop.EarlyFunctorSleeps`).
  `EventLoop.EarlyOnlyFromOutside` and `EventLoop.NoWakeupLost` show it is the only way.
- With capacity 0 a putter and a taker of the bounded queue can sleep together
  (`BoundedBlockingQueue.NoRoomNoProgress`); with any other capacity never
  (`BoundedBlockingQueue.NeverAllAsleep`).
- `ThreadPool::stop` wakes the workers but not callers that wait for room. Such a caller can be left
  in a pool without workers exactly if the queue is bounded (`ThreadPool.StopStrandsIfBounded`), and
  then sleeps for ever (`ThreadPool.StrandedForEver`).
- Where tasks call `run` themselves, all workers can come to wait for room at once, exactly if the
  queue is bounded (`ThreadPool.WorkersJamIfBounded`); that too is for ever (`ThreadPool.JammedForEver`).
- A frame header that arrives in parts is completed by the bytes of the header before it, and the rest
  of it is taken for the body. Whatever the payloads and however the reads cut them up, they are
  delivered exactly when every header comes whole (`Framing.DeliveredExactlyWithWholeHeaders`), even
  between frames of equal length (`Framing.EqualLengthIsNotEnough`).
- `strToInt` reads a signed type's minimum back only if the type is narrower than `int`, where the
  arithmetic is done in `int` and the conversion wraps. From `int` on, its magnitude overflows the type
  before the sign is applied, which is undefined behaviour (`NumericString.IntComesBack`).
- The guard of `strToInt` against overflow leaves out the last digit. A string of digits and all its
  beginnings are read when in range and rejected when not, exactly if none of them is the maximum but
  for a larger last digit (`NumericString.ReadOrRejected`). An unsigned type accepts such a number as a
  small one (`NumericString.AboveMaximum`).
- `strToInt` takes the digits up to 7 in every base; those it reads are digits of the base exactly from
  base 8 on (`NumericString.DigitsBelowBase`).
- The UTF-16 decoder takes a low surrogate on its own for a character, and any unit above the
  surrogates for the second half of a pair: its test of the second unit looks at the first for the upper
  bound. In all other cases, and only there, it does what section 2.2 of RFC 2781 says
  (`TextTheorems.DecodesUnits`).
- `Date::weekDay` leaves 0 to 6 for day numbers below -1, except every seventh
  (`UtcTime.WeekDayInRange`).
- `intToStr` with a separator also puts one in front of a number, ",123", exactly when its digits
  fill their groups (`NumericString.LeadingSeparator`); the parser passes over it, so the round
  trip holds all the same (`NumericString.IntComesBack`).
- The comment at `examples/tstlesrv/concurrentqueue.h:1930-1932` explains a signed quotient, but
  `BLOCK_SIZE` is unsigned, so the division is unsigned. Both find the same slot
  (`BlockIndex.SignedLookupAgrees`), the right one for just those powers of two that divide the
  number of block bases (`BlockIndex.LookupNeedsCapacity`). The model follows the code.

## Model

| member | source | states |
|---|---|---|
| `Arithmetic.MaskIsRemainder` | examples/tstlesrv/concurrentqueue.h:3309 | masking with a power-of-two capacity less one, as every circular index here does, is the remainder by the capacity |
| `FreeList.InvKept` | examples/tstlesrv/concurrentqueue.h:1364-1443 | every atomic access of any thread inside `add` or `try_get` keeps: listed nodes form a duplicate-free null-ended chain from the head, each node is owned, listed, pending, being linked by one thread or just popped by one thread, and its reference word matches |
| `FreeList.EveryReachableStateIsSound` | examples/tstlesrv/concurrentqueue.h:1364-1443 | the invariant holds in every state of every run of any interleaving |
| `FreeList.HandedOutNodeChangesHands` | examples/tstlesrv/concurrentqueue.h:1395-1403 | the node `try_get` returns was popped by this very caller, belonged to no client, and is now owned |
| `FreeList.OwnershipMovesOnlyByCalls` | examples/tstlesrv/concurrentqueue.h:1364-1403 | a node leaves its owner only by `add` of it and gets one only by being handed out |
| `FreeList.NoNodeHandedOutTwice` | examples/tstlesrv/concurrentqueue.h:1378-1415 | in every run, between two hand-outs of one node to any callers lies an `add` of it |
| `FreeList.QuiescentNode` | examples/tstlesrv/concurrentqueue.h:1364-1443 | with no call in flight a node is listed with reference word 1 or owned with reference word 0, nothing else |
| `FreeList.AddedNodeIsListedOrTaken` | examples/tstlesrv/concurrentqueue.h:1364-1443 | no node drops out of the account: when a run has come to rest, each node added in it is in the list or was handed out after its `add` |
| `FreeList.SuccessfulCasInstallsTrueSuccessor` | examples/tstlesrv/concurrentqueue.h:1392-1395 | no ABA: when the head CAS of `try_get` is about to succeed, the `next` it read long before is the present second node of the list |
| `FreeList.ReferenceWordMatchesHolders` | examples/tstlesrv/concurrentqueue.h:1387-1437 | the low 31 bits are exactly the threads between increment and decrement plus one for the list; the top bit is up exactly while the node is pending or being linked and not yet exposed |
| `FreeList.AssertionInTryGetHolds` | examples/tstlesrv/concurrentqueue.h:1398 | the assertion after a successful CAS: the popped node has its flag down |
| `FreeList.PendingNodeIsNeverOrphaned` | examples/tstlesrv/concurrentqueue.h:1408-1411 | a pending node always has a holder, none of which pops it, and the last one to let go takes over linking it |
| `FreeList.TryGetAloneTakesTheFront` | examples/tstlesrv/concurrentqueue.h:1378-1415 | whatever the others are in the midst of, `try_get` left alone hands out the front of the list in six accesses and leaves the rest, and comes back empty-handed if there is nothing |
| `FreeList.EmptyHandedSawEmptyList` | examples/tstlesrv/concurrentqueue.h:1378-1415 | in every run, between the call and the return of a `try_get` that hands out nothing there was a moment at which the list was empty |
| `FreeList.AddAloneLists` | examples/tstlesrv/concurrentqueue.h:1364-1376 | `add` left alone puts the node at the front, or leaves it pending exactly if somebody still refers to it |
| `Words.CircularLessIsLess` | examples/tstlesrv/concurrentqueue.h:398-405 | on words of integers less than half the range apart the circular comparison is the comparison of the integers; without that condition it compares the wrapped distance with half the range |
| `Claims.InvKept` | examples/tstlesrv/concurrentqueue.h:1875-1967 | every access of producer and of single and bulk dequeuers, mixed, within the window assumption keeps the bookkeeping invariant over the log of attempts |
| `Claims.EveryReachableStateIsSound` | examples/tstlesrv/concurrentqueue.h:1875-1967 | and so it holds throughout every run within the window assumption |
| `Claims.GrantsNeverExceedTail` | examples/tstlesrv/concurrentqueue.h:1911-1922 | all items granted so far, claimed or about to be, number at most `tailIndex`, and overcommit never exceeds the optimistic count |
| `Claims.ClaimedRangeIsPublished` | examples/tstlesrv/concurrentqueue.h:1911-1922 | the range a thread is about to take by `headIndex.fetch_add` lies wholly below the published tail |
| `Claims.LoadedOvercommitAtMostPosition` | examples/tstlesrv/concurrentqueue.h:1899-1905 | the assertion `overcommit <= myDequeueCount` |
| `Claims.QuiescentCountersAgree` | examples/tstlesrv/concurrentqueue.h:2243-2246 | with no dequeue in flight, optimistic minus overcommit is the head again, and the head is at most the tail |
| `Claims.SingleIsBulkOfOne` | examples/tstlesrv/concurrentqueue.h:2159-2181 | the two tests of the single dequeue decide as the bulk dequeue asked for one item |
| `Claims.TestsBelowHalfRange` | examples/tstlesrv/concurrentqueue.h:2164-2181 | with items between position and tail both tests find them: the dequeue goes for, and is granted, the smaller of what it wants and what is there |
| `Claims.TestsFindNothing` | examples/tstlesrv/concurrentqueue.h:2164-2181 | with the position at the tail or past it both tests find nothing |
| `Claims.SoloDequeueTakesWhatIsThere` | examples/tstlesrv/concurrentqueue.h:2159-2246 | a dequeue running alone, single or bulk, takes exactly the smaller of what it asks for and what is there, nothing from an empty queue or when asked for nothing, and leaves the counters at rest |
| `Claims.EachIndexClaimedOnce` | examples/tstlesrv/concurrentqueue.h:1922 | in every run within the window assumption each index below the head was claimed by exactly one step, and only when it was below the tail |
| `Claims.OnlyZeroClaimsNothing` | examples/tstlesrv/concurrentqueue.h:2690-2712 | whatever the code does, no dequeue claims 0 items unless a bulk dequeue asked for 0 |
| `Claims.TakesAtMostAsked` | examples/tstlesrv/concurrentqueue.h:2159-2181 | whatever the code does, a dequeue moves the head by at most what its own caller asked for |
| `Claims.DequeueGoesOn` | examples/tstlesrv/concurrentqueue.h:1875-1967 | every access of a dequeue brings it nearer to its claim or its end, which it reaches after at most seven, and nobody else takes it back |
| `Claims.EffectivePosition` | examples/tstlesrv/concurrentqueue.h:1899-1911 | optimistic minus overcommit is at least the head, and ahead of it by at most what the open attempts are after |
| `Claims.ModerateTrafficStaysInWindow` | examples/tstlesrv/concurrentqueue.h:1877-1911 | whatever the code does is a run within the window assumption as long as no dequeue sleeps through 2^63 items put in or reserved |
| `BlockIndex.LookupFindsSlot` | examples/tstlesrv/concurrentqueue.h:1927-1936 | modulo 2^64, for every power-of-two capacity up to 2^59 and from the entry of any block number, before or after the wanted one, the computed slot is the claimed block's |
| `BlockIndex.LookupNeedsCapacity` | examples/tstlesrv/concurrentqueue.h:1933-1936 | a power-of-two capacity gives the right slot for every index, front and start exactly if it divides 2^64/BLOCK_SIZE |
| `BlockIndex.SignedLookupAgrees` | examples/tstlesrv/concurrentqueue.h:1930-1936 | the signed quotient that the comment describes finds the same slot as the unsigned one of the code |
| `IndexGrowth.MetAgain` | examples/tstlesrv/concurrentqueue.h:2884-2890 | a walk round the index meets its start again after exactly the steps that lie between, up to one full round |
| `IndexGrowth.CopyUsed` | examples/tstlesrv/concurrentqueue.h:2282-2290 | the copy loop of the explicit producer copies the used entries in order to the front of the new array, all of them when the index is full, and touches nothing else |
| `IndexGrowth.CopyAround` | examples/tstlesrv/concurrentqueue.h:2883-2902 | the copy loop of the implicit producer copies all old pointers from behind the tail round to it, appends the fresh ones, and puts the new tail on the old one's pointer |
| `IndexGrowth.CopyUsedMakesHeader` | examples/tstlesrv/concurrentqueue.h:2268-2305 | the header the explicit queue's model installs is what the loop leaves |
| `IndexGrowth.CopyAroundMakesHeader` | examples/tstlesrv/concurrentqueue.h:2867-2909 | the header the implicit queue's model installs is what the loop leaves |
| `Fifo.WindowMoves` | examples/tstlesrv/concurrentqueue.h:1870-1922 | moving tail or head over a growing list of items is a put at the end or a take at the front of the plain queue between them |
| `ExplicitQueueConsumers.ConsumerStepKeepsInv` | examples/tstlesrv/concurrentqueue.h:1875-1962 | every consumer access keeps the invariant of ring, flags, index and readers |
| `ExplicitQueueProducer.ProducerStepKeepsInv` | examples/tstlesrv/concurrentqueue.h:1772-1872 | every producer access keeps it: reuse of the block ahead, insertion of a block, growth of the index, refusals |
| `ExplicitQueueTheorems.InvKept` | examples/tstlesrv/concurrentqueue.h:1772-1962 | every step of producer and consumers keeps the invariant |
| `ExplicitQueueTheorems.EveryReachableStateIsSound` | examples/tstlesrv/concurrentqueue.h:1772-1962 | and so it holds throughout every run within the window assumption |
| `ExplicitQueueTheorems.ModerateTrafficIsARun` | examples/tstlesrv/concurrentqueue.h:1772-1971 | whatever producer and consumers do is such a run as long as no dequeue sleeps through 2^63 items put in or reserved |
| `ExplicitQueueTheorems.StepRefinesFifo` | examples/tstlesrv/concurrentqueue.h:1772-1962 | every step is a put, a take or nothing on the plain queue of items published and not yet claimed; takes never ask for more than it has |
| `ExplicitQueueTheorems.PublishedItemsAreThePuts` | examples/tstlesrv/concurrentqueue.h:1870 | in every run the published items are exactly, and in order, the items callers gave to those calls of `enqueue` that moved `tailIndex` |
| `ExplicitQueueTheorems.ReadDeliversTheClaimedItem` | examples/tstlesrv/concurrentqueue.h:1938-1959 | the item read for claimed index i, through index and block, is the i-th item enqueued, read by the claimer and for the first time |
| `ExplicitQueueTheorems.DeliveredIsWhatWasPut` | examples/tstlesrv/concurrentqueue.h:1938-1959 | at every moment of a run, reads in flight or not, what was delivered for index i is the item given to the i-th publishing call of `enqueue` |
| `ExplicitQueueTheorems.NoIndexReadTwice` | examples/tstlesrv/concurrentqueue.h:1938-1959 | no two steps of a run read the item of one index |
| `ExplicitQueueTheorems.DeliveriesAreTheFirstPuts` | examples/tstlesrv/concurrentqueue.h:1772-1962 | in every run, when no read is in flight, the deliveries are index by index the first items given to publishing calls of `enqueue`, each exactly once |
| `ExplicitQueueTheorems.NothingStranded` | examples/tstlesrv/concurrentqueue.h:1965-1966 | with no dequeue in flight everything published and unclaimed is in its cell and within the consumers' reach |
| `ExplicitQueueTheorems.ClaimedSlotIsSafe` | examples/tstlesrv/concurrentqueue.h:1780-1783 | while a claimed slot is not marked empty, whatever others do, its block stays in the ring at its place, its flag stays down and, until read, its item stays |
| `ExplicitQueueTheorems.IndexHoldsTheRing` | examples/tstlesrv/concurrentqueue.h:1854-1859 | in every run, in the index as built, lapped and grown, each header names base and block of every block number it covers in the slot that lookup computes, and the current one covers the ring |
| `ExplicitQueueTheorems.LookupFindsBlock` | examples/tstlesrv/concurrentqueue.h:1927-1936 | the slot a consumer computes from the front it observed holds base and block of its index |
| `ExplicitQueueTheorems.LapSparesTheRing` | examples/tstlesrv/concurrentqueue.h:1854-1859 | the slot the producer is about to overwrite is that of no block in the ring |
| `ExplicitQueueTheorems.GrowthKeepsEntries` | examples/tstlesrv/concurrentqueue.h:2268-2305 | growth doubles the capacity, leaves the old headers as they are, keeps base and block of every block in use, and has the front for the next block right |
| `ExplicitQueueTheorems.ObservedEntriesAreStable` | examples/tstlesrv/concurrentqueue.h:1927-1936 | the front entry and the block's entry in the header a reader holds do not change under it, even if the producer laps the ring or publishes larger indexes |
| `ExplicitQueueTheorems.ComputedEntryIsStable` | examples/tstlesrv/concurrentqueue.h:1935-1936 | once the slot is computed, its entry stays until the block is loaded |
| `ExplicitQueueTheorems.WalkFindsNextBlock` | examples/tstlesrv/concurrentqueue.h:2194-2239 | the slot a bulk dequeue steps to holds the block it goes on with |
| `ExplicitQueueTheorems.FlagAboutToBeSetIsDown` | examples/tstlesrv/concurrentqueue.h:1502-1530 | the assertions of `set_empty` and `set_many_empty`: the flag about to be set is down |
| `ExplicitQueueTheorems.TailNeverLapsHead` | examples/tstlesrv/concurrentqueue.h:1791-1803 | the assertion that the tail is not before the head, and the room check's effect: they are never more than half the range apart |
| `ExplicitQueueTheorems.EmptyExactlyWhenFinished` | examples/tstlesrv/concurrentqueue.h:1475-1488 | the block ahead tests empty exactly when all items of its indices have been dequeued and marked |
| `ExplicitQueueCalls.EnqueuePublishesOrIsRefused` | examples/tstlesrv/concurrentqueue.h:1772-1872 | in every run a call of `enqueue` that has ended has published its caller's item, once, or nothing because at its last step an allocator refused or the true tail would have come half the range ahead of the true head |
| `ExplicitQueueCalls.AsksOnlyIfAheadInUse` | examples/tstlesrv/concurrentqueue.h:1776-1832 | `enqueue` turns to the allocators only if there is no block yet, or an item of the block ahead was unfinished at some moment of the call |
| `ExplicitQueueCalls.EnqueueGoesOn` | examples/tstlesrv/concurrentqueue.h:1772-1872 | every step of `enqueue` brings it nearer to its end, whatever the allocators answer, and nobody else takes it back |
| `ExplicitQueueCalls.DequeueGoesOn` | examples/tstlesrv/concurrentqueue.h:2185-2241 | every step of a dequeue that has claimed items brings it nearer to its end, through all its blocks |
| `ExplicitQueueCalls.ThroughMeansDelivered` | examples/tstlesrv/concurrentqueue.h:2185-2241 | a dequeue that is through has delivered every item it claimed |
| `ImplicitQueueConsumers.ConsumerStepKeepsInv` | examples/tstlesrv/concurrentqueue.h:2462-2532 | every consumer access of dequeues that claim items keeps the invariant, with counting, nulling of the entry and return of the block as separate steps |
| `ImplicitQueueProducer.ProducerStepKeepsInv` | examples/tstlesrv/concurrentqueue.h:2399-2460 | every producer access keeps it: finding or growing into an index entry, keying it, taking a block or rewinding, entering it |
| `ImplicitQueueTheorems.InvKept` | examples/tstlesrv/concurrentqueue.h:2399-2532 | every step of producer and consumers keeps the invariant, claims of 0 items excepted |
| `ImplicitQueueTheorems.EveryReachableStateIsSound` | examples/tstlesrv/concurrentqueue.h:2399-2532 | and so it holds throughout every run within the window assumption in which no dequeue claims 0 items |
| `ImplicitQueueTheorems.ModerateTrafficIsARun` | examples/tstlesrv/concurrentqueue.h:2399-2532 | whatever producer and consumers do is such a run as long as no bulk dequeue asks for 0 items and none sleeps through 2^63 items put in or reserved |
| `ImplicitQueueTheorems.StepRefinesFifo` | examples/tstlesrv/concurrentqueue.h:2399-2532 | every step is a put, a take or nothing on the plain queue |
| `ImplicitQueueTheorems.PublishedItemsAreThePuts` | examples/tstlesrv/concurrentqueue.h:2458 | in every run the published items are exactly, and in order, the items callers gave to those calls of `enqueue` that moved `tailIndex` |
| `ImplicitQueueTheorems.ReadDeliversTheClaimedItem` | examples/tstlesrv/concurrentqueue.h:2477-2510 | in runs without claims of 0 items, the item read for claimed index i is the i-th item enqueued, read by the claimer and for the first time |
| `ImplicitQueueTheorems.DeliveredIsWhatWasPut` | examples/tstlesrv/concurrentqueue.h:2477-2510 | at every moment of such a run, reads in flight or not, what was delivered for index i is the item given to the i-th publishing call of `enqueue` |
| `ImplicitQueueTheorems.NoIndexReadTwice` | examples/tstlesrv/concurrentqueue.h:2477-2510 | no two steps of a run read the item of one index |
| `ImplicitQueueTheorems.DeliveriesAreTheFirstPuts` | examples/tstlesrv/concurrentqueue.h:2399-2532 | in every such run, when no read is in flight, the deliveries are the first items given to publishing calls of `enqueue`, each exactly once |
| `ImplicitQueueTheorems.GivenBackWhenDone` | examples/tstlesrv/concurrentqueue.h:2512-2520 | as long as no dequeue claims 0 items, a block goes back only by the dequeuer that completed its count, after its entry was nulled, when every item in it was delivered |
| `ImplicitQueueTheorems.GivenBackAtMostOnce` | examples/tstlesrv/concurrentqueue.h:2512-2520 | in no run without claims of 0 items is a filled block returned twice |
| `ImplicitQueueTheorems.GivenBackAtLeastOnce` | examples/tstlesrv/concurrentqueue.h:2512-2520 | when all readers rest, exactly the blocks whose items have all been claimed have been returned; none is stuck between |
| `ImplicitQueueTheorems.FatesOnlyMoveOnInRun` | examples/tstlesrv/concurrentqueue.h:2512-2520 | in such runs a block number goes from open through full and nulled to returned and never back |
| `ImplicitQueueTheorems.CountIsExact` | examples/tstlesrv/concurrentqueue.h:1511-1515 | in states of such runs `elementsCompletelyDequeued` never exceeds the block size, and reaches it exactly for the dequeuer that finishes the block's last item |
| `ImplicitQueueTheorems.UnreadIsFindable` | examples/tstlesrv/concurrentqueue.h:2849-2865 | every unread item's block stays findable through the current index: right key, right non-null block, and the item in its cell |
| `ImplicitQueueTheorems.LookupAssertionsHold` | examples/tstlesrv/concurrentqueue.h:2854-2864 | in states of such runs the assertions of the lookup hold, also in an old header a reader still holds |
| `ImplicitQueueTheorems.GrowthKeepsLookups` | examples/tstlesrv/concurrentqueue.h:2867-2909 | growth doubles the capacity, leaves old headers as they are, finds every live block at its entry, and the slot it makes free holds an invalid key |
| `ImplicitQueueTheorems.ClaimedSlotIsSafe` | examples/tstlesrv/concurrentqueue.h:2462-2532 | while a claimed slot is uncounted, whatever others do short of claiming 0 items, its block is neither returned nor reassigned and, until read, its item stays |
| `ImplicitQueueTheorems.TailNeverLapsHead` | examples/tstlesrv/concurrentqueue.h:2405-2409 | the assertion that the tail is not before the head, and the room check's effect |
| `ImplicitQueueCalls.EnqueuePublishesOrIsRefused` | examples/tstlesrv/concurrentqueue.h:2399-2460 | in every run a call of `enqueue` that has ended has published its caller's item, once, or nothing because within it an allocator refused, the constructor's had refused, or the true tail would have come half the range ahead of the true head |
| `ImplicitQueueCalls.GrowsOnlyIfFull` | examples/tstlesrv/concurrentqueue.h:2813-2836 | the index is enlarged only if the block one round before the one to come has not been given back |
| `ImplicitQueueCalls.EnqueueGoesOn` | examples/tstlesrv/concurrentqueue.h:2399-2460 | every step of `enqueue` brings it nearer to its end, whatever the allocators answer, and nobody else takes it back |
| `ImplicitQueueCalls.DequeueGoesOn` | examples/tstlesrv/concurrentqueue.h:2685-2785 | every step of a dequeue that has claimed items brings it nearer to its end, through all its blocks |
| `ImplicitQueueCalls.ThroughMeansDelivered` | examples/tstlesrv/concurrentqueue.h:2685-2785 | a dequeue that is through has delivered every item it claimed |
| `EmptyBulkDequeue.GivenBackTwice` | examples/tstlesrv/concurrentqueue.h:2685-2785 | a run in which a bulk dequeue of 0 items returns a block that another one has returned |
| `EmptyBulkDequeue.ReturnedOnceUnlessZero` | examples/tstlesrv/concurrentqueue.h:2685-2785 | no block is returned twice by anything the code can do within the window assumption if and only if no bulk dequeue asks for 0 items |
| `EmptyBulkDequeue.LooksUpNothing` | examples/tstlesrv/concurrentqueue.h:2685-2717 | a run in which a bulk dequeue of 0 items looks up a block that was never entered |
| `EmptyBulkDequeue.LookupSoundUnlessZero` | examples/tstlesrv/concurrentqueue.h:2849-2865 | the lookup's assertions hold in all that the code can do within the window assumption if and only if no bulk dequeue asks for 0 items |
| `ProducerHash.InvKept` | examples/tstlesrv/concurrentqueue.h:3285-3433 | every access keeps the invariant: lookup, lazy copy, count, resize under its flag, insertion, allocators that refuse |
| `ProducerHash.EveryReachableStateIsSound` | examples/tstlesrv/concurrentqueue.h:3285-3433 | and so it holds throughout every run, from any power-of-two initial size; capacities stay powers of two |
| `ProducerHash.FewerKeysThanThreshold` | examples/tstlesrv/concurrentqueue.h:3387-3390 | every table holds fewer keys than three quarters of its capacity, the bound of the insertion loop |
| `ProducerHash.EveryProbeEnds` | examples/tstlesrv/concurrentqueue.h:3307-3345 | in every reachable state every table has, within one round from a thread's hash, an empty slot or the thread's own |
| `ProducerHash.ProbesStayShort` | examples/tstlesrv/concurrentqueue.h:3308-3345 | no probe loop of any thread ever passes its table's capacity |
| `ProducerHash.EmptySlotMeansAbsent` | examples/tstlesrv/concurrentqueue.h:3341-3343 | meeting an empty slot means the thread has no key in that table |
| `ProducerHash.FoundInLookup` | examples/tstlesrv/concurrentqueue.h:3312-3339 | what a lookup finds is the producer the thread was given, and the current table has room for its copy |
| `ProducerHash.ReturnIsGiven` | examples/tstlesrv/concurrentqueue.h:3339-3425 | what a call returns is a producer made for the caller, the one it was given before if any |
| `ProducerHash.OneProducerPerThread` | examples/tstlesrv/concurrentqueue.h:3285-3433 | in every run, two returned producers are the same exactly when the threads are |
| `ProducerHash.QuiescentCount` | examples/tstlesrv/concurrentqueue.h:3349-3398 | at rest the count is the number of threads with a producer, after any failed allocations, and the resize flag is down |
| `ProducerHash.OneResizer` | examples/tstlesrv/concurrentqueue.h:3351-3384 | at most one thread is inside the resize at any time |
| `ProducerHashCalls.ReturnsOrIsRefused` | examples/tstlesrv/concurrentqueue.h:3285-3433 | in every run a call that has ended has returned a producer, unless an allocator refused in that very call |
| `ProducerHashCalls.EnlargedAtHalf` | examples/tstlesrv/concurrentqueue.h:3351-3381 | a table is added only by a thread that drew a count of at least half the current capacity, and is twice as large, or as many times twice as it takes for that count to be below half of it |
| `ProducerHashCalls.SettlesBelowThreeQuarters` | examples/tstlesrv/concurrentqueue.h:3390 | a thread goes on to insert if and only if its count is below three quarters of the capacity |
| `ProducerHashCalls.CallGoesOn` | examples/tstlesrv/concurrentqueue.h:3285-3433 | every access of a call brings it nearer to its end, through lookup, copy, resize and insertion; it goes round only while another thread is resizing |
| `ProducerHashCalls.OthersKeepDistance` | examples/tstlesrv/concurrentqueue.h:3285-3433 | and no access of another thread takes it back |
| `EventLoop.InvKept` | muduo/net/EventLoop.cpp:127-213 | every step of loop thread and callers keeps the invariant |
| `EventLoop.EveryReachableStateIsSound` | muduo/net/EventLoop.cpp:127-213 | and so it holds throughout every run |
| `EventLoop.NoWakeupLost` | muduo/net/EventLoop.cpp:191-213 | whenever the loop is in poll with functors pending, or told to quit, the eventfd is readable or a caller is just before its `wakeup`; functors the loop thread queued outside `loop()` excepted |
| `EventLoop.EarlyOnlyFromOutside` | muduo/net/EventLoop.cpp:204-212 | the exception arises only from such a call |
| `EventLoop.QueuedOutsideWakesNobody` | muduo/net/EventLoop.cpp:191-213 | and then it does arise: from every sound state outside `loop()`, a functor so queued is pending when the loop comes to poll, and a wake-up is due then if and only if one was due before |
| `EventLoop.EarlyFunctorSleeps` | muduo/net/EventLoop.cpp:204-212 | so a fresh loop sleeps with the functor pending and no wake-up due |
| `EventLoop.RanInQueueOrder` | muduo/net/EventLoop.cpp:393-420 | in every run the functors given to `queueInLoop`, by the loop thread or by calls that have got past the mutex, are exactly those that ran, then those taken, then those pending: none lost, each at most once, in order |
| `EventLoop.RanDirectly` | muduo/net/EventLoop.cpp:267-279 | what the loop thread gives to `runInLoop` runs at once, in order |
| `EventLoop.QuitIsRemembered` | muduo/net/EventLoop.cpp:127-178 | the flag is up exactly if `quit` was called, by whomever, since `loop` was entered last |
| `EventLoop.CallEndsWithWakeup` | muduo/net/EventLoop.cpp:167-213 | a call from another thread is through after two steps of its own and leaves the eventfd readable |
| `EventLoop.CounterInRange` | muduo/net/EventLoop.cpp:372-391 | the counter of the eventfd never exceeds what it can hold, however many wake-ups come before it is read |
| `EventLoop.HistoryGrows` | muduo/net/EventLoop.cpp:393-420 | what ran stays run, and what was queued stays queued |
| `EventLoop.HandleReadFindsCount` | muduo/net/EventLoop.cpp:383-391 | the read in `handleRead` always finds a count |
| `EventLoop.WokenLoopDrains` | muduo/net/EventLoop.cpp:142-160 | a loop woken from poll, left alone, reads the eventfd down to 0, runs everything pending in order, and then leaves if told to quit and polls if not |
| `Condition.NotifyCovers` | muduo/base/Condition.h:41-44 | a single notification for one more unit of work keeps work covered by signalled threads while anyone waits unsignalled, whomever it wakes |
| `Condition.TakingCovers` | muduo/base/Condition.h:32-36 | so does a thread, signalled or barging, that takes a unit |
| `Condition.WaitingCovers` | muduo/base/Condition.h:32-36 | and one that finds nothing and waits |
| `BoundedBlockingQueue.InvKept` | muduo/base/BoundedBlockingQueue.h:31-55 | every pass under the mutex and every spurious wake-up keeps the invariant |
| `BoundedBlockingQueue.EveryReachableStateIsSound` | muduo/base/BoundedBlockingQueue.h:31-55 | and so it holds throughout every run |
| `BoundedBlockingQueue.NoWakeupLost` | muduo/base/BoundedBlockingQueue.h:31-55 | while an unsignalled taker sleeps, queued items are at most the signalled takers; dually for putters and free room |
| `BoundedBlockingQueue.NeverAllAsleep` | muduo/base/BoundedBlockingQueue.h:31-55 | with positive capacity, when both takers and putters sleep unsignalled, somebody in a call is awake |
| `BoundedBlockingQueue.NoRoomNoProgress` | muduo/base/BoundedBlockingQueue.h:34-37 | with capacity 0 a state where everybody sleeps is reached |
| `BoundedBlockingQueue.TakesAreThePuts` | muduo/base/BoundedBlockingQueue.h:31-55 | in every run the items given to calls of `put`, in the order in which they came through, are those taken followed by the queue, within the capacity |
| `BoundedBlockingQueue.GoesOnExactlyWhenItMay` | muduo/base/BoundedBlockingQueue.h:38-50 | past its wait loop a call goes on if and only if it may: `put` with room, leaving its item at the end, `take` with an item, taking the front |
| `BoundedBlockingQueue.Monitor.constructor` | muduo/base/BoundedBlockingQueue.h:23-29 | an empty queue of the given capacity with nobody waiting |
| `BoundedBlockingQueue.Monitor.TryPut` | muduo/base/BoundedBlockingQueue.h:33-40 | one pass of `put` on the object's fields is the step of the model: push and notify, or wait |
| `BoundedBlockingQueue.Monitor.TryTake` | muduo/base/BoundedBlockingQueue.h:45-54 | one pass of `take` likewise |
| `ThreadPool.InvKept` | muduo/base/ThreadPool.cc:53-175 | every step of callers, workers and `stop` keeps the invariant |
| `ThreadPool.EveryReachableStateIsSound` | muduo/base/ThreadPool.cc:53-175 | and so it holds throughout every run |
| `ThreadPool.NoWakeupLost` | muduo/base/ThreadPool.cc:71-138 | while an unsignalled worker sleeps, queued tasks are at most the signalled workers; dually for callers and room; after `stop` no worker sleeps unsignalled |
| `ThreadPool.NeverAllAsleep` | muduo/base/ThreadPool.cc:71-138 | sleeping workers and sleeping callers together mean that some worker or caller is awake |
| `ThreadPool.ExecutedInOrder` | muduo/base/ThreadPool.cc:113-132 | in every run the tasks given to calls of `run`, in the order in which they came through, are those the workers executed followed by the queue: each at most once, in order, within the bound |
| `ThreadPool.WaitsExactlyWhenItMust` | muduo/base/ThreadPool.cc:71-138 | `run` waits if and only if a bound is reached, `take` if and only if there is nothing and the pool runs; else the task goes to the end, the front is taken, or there is none |
| `ThreadPool.WorkersStay` | muduo/base/ThreadPool.cc:148-155 | as long as the pool runs all its workers are there |
| `ThreadPool.NextTask` | muduo/base/ThreadPool.cc:148-155 | a worker left alone that is through with a task executes the front of the queue next |
| `ThreadPool.StoppedWorkerLeaves` | muduo/base/ThreadPool.cc:148-155 | after `stop` each worker whose task is not inside a call of `run`, left alone, leaves after at most one more task |
| `ThreadPool.WorkersJamIfBounded` | muduo/base/ThreadPool.cc:71-138 | with any workers, a state with all of them asleep in `run` can be reached if and only if the queue is bounded |
| `ThreadPool.JammedForEver` | muduo/base/ThreadPool.cc:71-138 | once the queue is full and every worker is inside a call of `run`, nothing in the run changes that: no task is taken and no call of `run` returns |
| `ThreadPool.StopStrandsIfBounded` | muduo/base/ThreadPool.cc:53-89 | with any workers, a state with such a caller can be reached if and only if the queue is bounded |
| `ThreadPool.StrandedForEver` | muduo/base/ThreadPool.cc:80-83 | a caller that waits for room in a stopped pool that all workers have left is there in every later state of the run |
| `NetworkOrder.SignedOfBigEndian` | muduo/net/Buffer.h:264-370 | peeking at an appended signed integer of any width returns it |
| `NetworkOrder.BigEndianOfSigned` | muduo/net/Buffer.h:294-370 | the bytes read as an integer are the bytes of that integer, which fits the width |
| `NetworkOrder.UnsignedOfBigEndian` | muduo/net/Buffer.h:264-370 | the same for the unsigned reading |
| `NetworkOrder.BigEndianWraps` | muduo/net/Buffer.h:264-288 | bytes of integers one period of the width apart are the same |
| `ByteBuffer.Buffer.constructor` | muduo/net/Buffer.h:71-79 | an empty buffer with its reserve in front and the room asked for |
| `ByteBuffer.Buffer.Retrieve` | muduo/net/Buffer.h:139-154 | drops bytes from the front; when it empties the buffer the window goes back behind the reserve |
| `ByteBuffer.Buffer.RetrieveAll` | muduo/net/Buffer.h:184-188 | empties the buffer |
| `ByteBuffer.Buffer.RetrieveAsString` | muduo/net/Buffer.h:196-205 | returns exactly the bytes it drops |
| `ByteBuffer.Buffer.MoveDown` | muduo/net/Buffer.h:461-473 | compaction in place moves the contents, which may overlap their target, down to the reserve unchanged |
| `ByteBuffer.Buffer.MakeSpace` | muduo/net/Buffer.h:444-474 | makes the room by compaction, or by growth to just what is needed if and only if contents and room do not fit the array; keeps contents and reserve; the assertion in the compaction branch holds |
| `ByteBuffer.Buffer.EnsureWritableBytes` | muduo/net/Buffer.h:233-241 | there is room afterwards, contents and reserve are kept, and nothing changes when there was room before |
| `ByteBuffer.Buffer.HasWritten` | muduo/net/Buffer.h:249-253 | takes in the bytes written behind the window |
| `ByteBuffer.Buffer.Unwrite` | muduo/net/Buffer.h:255-259 | drops bytes from the end |
| `ByteBuffer.Buffer.Append` | muduo/net/Buffer.h:218-226 | contents become contents then data, through compaction or growth where needed |
| `ByteBuffer.Buffer.Prepend` | muduo/net/Buffer.h:401-407 | contents become data then contents |
| `ByteBuffer.Buffer.Swap` | muduo/net/Buffer.h:84-89 | exchanges the contents and room of two buffers |
| `ByteBuffer.Buffer.Shrink` | muduo/net/Buffer.h:410-419 | moves the contents unchanged into a new array with the reserve asked for |
| `ByteBuffer.Buffer.ReadFd` | muduo/net/Buffer.cc:52-99 | appends exactly the n bytes read, also when they spill into the stack buffer; a failed read changes no contents and saves the error |
| `ByteBuffer.Buffer.AppendInt` | muduo/net/Buffer.h:264-288 | appends the integer's bytes in network order |
| `ByteBuffer.Buffer.PrependInt` | muduo/net/Buffer.h:375-399 | puts the integer's bytes in network order in front |
| `ByteBuffer.Buffer.ReadInt` | muduo/net/Buffer.h:294-324 | drops exactly the bytes of the integer it returns; an integer appended or prepended there is the one returned |
| `ByteBuffer.Buffer.PeekInt32FromReserve` | muduo/net/Buffer.h:350-355 | the integer whose bytes are the first four of the array |
| `ByteBuffer.OneReading` | muduo/net/Buffer.h:294-370 | bytes that begin with an integer of a width begin with no other |
| `Framing.StreamDelivered` | examples/tstlesrv/frametransport.cpp:74-161 | for every list of non-empty payloads and every way their bodies are cut up, with headers whole and no failed read, the messages delivered are exactly the payloads, in order, and the connection is never closed |
| `Framing.FrameDelivered` | examples/tstlesrv/frametransport.cpp:74-161 | the same for one frame, from any bytes left in the reserve by earlier frames |
| `Framing.BodyDelivered` | examples/tstlesrv/frametransport.cpp:257-289 | a body delivers itself exactly once, when its last piece is in |
| `Framing.InPieces` | examples/tstlesrv/frametransport.cpp:116-161 | a stream read in two parts ends and delivers as in one |
| `Framing.DeliveredExactlyWithWholeHeaders` | examples/tstlesrv/frametransport.cpp:74-289 | for every list of non-empty payloads and every way in which reads cut up the bytes sent, headers included: exactly the payloads are delivered, nothing is closed and the transport is between frames if and only if every read between frames brings a whole header |
| `Framing.EqualLengthIsNotEnough` | examples/tstlesrv/frametransport.cpp:220-289 | a frame as long as the one before, its header read in two parts, is delivered wrong |
| `FrameTransport.Transport.constructor` | examples/tstlesrv/frametransport.cpp:15-23 | a transport between frames |
| `FrameTransport.Transport.GetMsg` | examples/tstlesrv/frametransport.cpp:210-216 | takes as many bytes as the header kept in the reserve says, and leaves the reserve |
| `FrameTransport.Transport.ReadFraming` | examples/tstlesrv/frametransport.cpp:220-256 | writes the header into the reserve without disturbing the empty contents; the branch for a body that is already there is never taken |
| `FrameTransport.Transport.ReadData` | examples/tstlesrv/frametransport.cpp:257-289 | appends what was read behind the body so far, keeps the header in the reserve through compaction and growth, and is done exactly when the body is complete |
| `FrameTransport.Transport.ReadSocket` | examples/tstlesrv/frametransport.cpp:116-161 | on the real buffer, one readable event is exactly one step of the framing; it closes if and only if it is another connection's, nothing could be read, or the header now in the reserve holds no positive length; a body read takes its bytes in and delivers the body exactly when it is complete |
| `FrameTransport.Transport.RdTransition` | examples/tstlesrv/frametransport.cpp:74-115 | after the header goes on to the body; after the body delivers the contents once and goes on to the next frame |
| `Calendar.DateOfItsDay` | muduo/base/Date.cc:20-42 | from March 1 of -4800 on, a date comes back from its day number |
| `Calendar.DayOfItsDate` | muduo/base/Date.cc:20-42 | and a day number from its date, which is a valid date |
| `Calendar.DayHasDate` | muduo/base/Date.cc:20-27 | every day number from the first on is that of a valid date |
| `Calendar.NextDayNumber` | muduo/base/Date.cc:20-27 | the next Gregorian day, through months, years and leap days, has the next number |
| `Calendar.NoOverflow` | muduo/base/Date.cc:29-42 | everything the conversion of a day number to a date computes on the way fits `int` if and only if the number is at most 536838867 |
| `Calendar.NumberStaysInInt` | muduo/base/Date.cc:20-27 | everything the conversion of a date to its number computes on the way fits up to the year 5874688, and not on the last date of the next |
| `Calendar.YearLength` | muduo/base/Date.cc:20-27 | the year term grows by 366 exactly into leap years |
| `UtcTime.FillHMS` | muduo/base/TimeZone.cc:71-77 | hour, minute and second, in range, of the seconds |
| `UtcTime.ToUtcTime` | muduo/base/TimeZone.cc:317-343 | the fields show exactly the instant, floored to its day also before the epoch |
| `UtcTime.FillDate` | muduo/base/TimeZone.cc:330-341 | the date is the valid one that has the day number, the week day counts on from the epoch's Thursday, and the day of the year counts the days of the year before the date |
| `UtcTime.SecondsComeBack` | muduo/base/TimeZone.cc:317-358 | `fromUtcTime(toUtcTime(s))` is `s`, and the date is valid |
| `UtcTime.FieldsComeBack` | muduo/base/TimeZone.cc:317-358 | a broken-down time comes back in all its fields, week day and day of the year aside |
| `UtcTime.FlooredDay` | muduo/base/TimeZone.cc:322-328 | C's truncated remainder and quotient, put right when negative, are the floored ones |
| `UtcTime.EpochDay` | muduo/base/TimeZone.cc:356 | the epoch has the day number used for it, and is a Thursday |
| `UtcTime.WeekDayInRange` | muduo/base/Date.h:100-103 | the week day is in 0 to 6 exactly for day numbers from -1 on and every seventh below |
| `UtcTime.WeekDaysGoRound` | muduo/base/Date.h:100-103 | consecutive days have consecutive week days |
| `UtcTime.YearDay` | muduo/base/TimeZone.cc:337-341 | the difference of day numbers is the count of days of the year before the date, one less in the year -4800 |
| `Utf8.Decode` | poco/UTF8Encoding.cpp:84-109 | the loop computes what the query decodes, given the sequence is there |
| `Utf8.AcceptsExactlyUtf8` | poco/UTF8Encoding.cpp:154-243 | the decoder accepts exactly the sequences of section 4 of RFC 3629, and asks for more bytes exactly when the lead byte's length is not there yet |
| `Utf8.DecodesToValue` | poco/UTF8Encoding.cpp:164-182 | what it decodes is the value spelled out by the sequence's bits |
| `Utf8.EncodedIsUtf8` | poco/UTF8Encoding.cpp:112-151 | an encoded scalar value is such a sequence, with that value |
| `Utf8.EncodedDecodes` | poco/UTF8Encoding.cpp:112-184 | an encoded scalar value decodes to itself, whatever follows |
| `Utf8.DecodedEncodes` | poco/UTF8Encoding.cpp:112-184 | accepted bytes decode to a scalar value that encodes to them again |
| `TextConversion.TextIterator.constructor` | poco/TextIterator.cpp:29-35 | an iterator at the start of the text |
| `TextConversion.TextIterator.Deref` | poco/TextIterator.cpp:94-129 | the character in front, or -1, as the specification function reads it |
| `TextConversion.TextIterator.Next` | poco/TextIterator.cpp:132-164 | goes on by exactly that character's step |
| `TextConversion.ConvertByIterator` | poco/TextConverter.cpp:44-63 | the iterator-based loop computes the specified output and error count |
| `TextConversion.ConvertBuffer` | poco/TextConverter.cpp:66-113 | the buffer-based loop computes the specified output and error count |
| `TextConversion.ProbeLoop` | poco/TextConverter.cpp:77-85 | the probing loop ends with the answer to the bytes shown |
| `TextConversion.AsksForMore` | poco/UTF16Encoding.cpp:193-236 | an encoding that asks for more bytes asks for more than it was shown and for at most four |
| `TextTheorems.StepsAgree` | poco/TextConverter.cpp:66-103 | operator `*` and `++` read the same character, or error, and step as the probing loop does |
| `TextTheorems.ConvertersAgree` | poco/TextConverter.cpp:44-113 | on every byte string, default character and transform, both converters give the same output and error count from UTF-8 |
| `TextTheorems.ConvertsByChars` | poco/TextConverter.cpp:66-113 | a well-formed character gives itself, transformed, and no error; one that is not gives the default character and one error for all the bytes its first byte announces, an illegal first byte announcing one; one cut off at the end for all that is left |
| `TextTheorems.EmitsOrReplaces` | poco/TextConverter.cpp:103-108 | a character too large for an encoding is replaced by the default one |
| `TextTheorems.OutputIsUtf8` | poco/TextConverter.cpp:66-113 | the output is always well-formed UTF-8; there are no errors exactly on well-formed input, which is then unchanged |
| `TextTheorems.ConvertingAgain` | poco/TextConverter.cpp:66-113 | converting the output again changes nothing and finds no error |
| `TextTheorems.ConvertToUtf16` | poco/UnicodeConverter.cpp:66-86 | the loop computes the specified units |
| `TextTheorems.PairComesBack` | poco/UnicodeConverter.cpp:77-83 | the two units of a supplementary character are a surrogate pair that section 2.2 of RFC 2781 decodes to it |
| `TextTheorems.ThroughUtf16` | poco/UnicodeConverter.cpp:66-120 | UTF-8 to UTF-16 to UTF-8 is the identity without errors on well-formed strings, in either native byte order |
| `TextTheorems.DecodesUnits` | poco/UTF16Encoding.cpp:193-236 | the UTF-16 decoder agrees with section 2.2 of RFC 2781 if and only if the first unit is no low surrogate, and not a high one before a unit above all surrogates |
| `TextTheorems.DecodesTooMuch` | poco/UTF16Encoding.cpp:193-236 | and what it takes for a character in those two cases |
| `NumericString.Put` | poco/NumericString.h:187-253 | writing through the bounds-checking pointer throws exactly at the end |
| `NumericString.PutDigits` | poco/NumericString.h:284-294 | the digits of the magnitude, lowest first, with separators, for values of either sign |
| `NumericString.Pad` | poco/NumericString.h:296-316 | fill characters up to the width, or an exception exactly when they do not fit |
| `NumericString.Write` | poco/NumericString.h:281-316 | digits, zeros, prefix, sign and fill in the order and number specified, or an exception exactly when they do not fit |
| `NumericString.TurnRound` | poco/NumericString.h:323-330 | the in-place loop reverses the number and leaves the terminator |
| `NumericString.IntToStr` | poco/NumericString.h:259-333 | the buffer holds sign, prefix, numeral and fill, laid out to the width, and the terminator; it throws exactly when the text is longer than the size, refuses exactly the bases outside 2 to 16 |
| `NumericString.PrintedShape` | poco/NumericString.h:284-330 | for every value, base, prefix, width, fill and separator: sign, prefix ("0" or "0x") and numeral, zeros up to the width before the numeral, any other fill before it all; the length is the larger of the width and that of the text |
| `NumericString.PrintsNumeral` | poco/NumericString.h:284-294 | the digits spell the magnitude, without a zero in front |
| `NumericString.DigitsAreCapital` | poco/NumericString.h:288 | digits from ten on are capital letters |
| `NumericString.Grouped` | poco/NumericString.h:284-294 | with separators every fourth character from the right is one, and the others are those of the numeral without them |
| `NumericString.StrToInt` | poco/NumericString.h:80-168 | the method with its sign handling computes the specified parse |
| `NumericString.ScanDigits` | poco/NumericString.h:104-163 | the scanning loop with its state of leading zeros computes the specified parse |
| `NumericString.CharacterRead` | poco/NumericString.h:107-160 | the value of every character in every base: decimal digits, letters of either case in base 16, and no other character is a digit |
| `NumericString.DigitsBelowBase` | poco/NumericString.h:107-160 | every digit read is below the base if and only if the base is at least 8 |
| `NumericString.SignsRead` | poco/NumericString.h:87-97 | white space and a plus sign are passed over; a minus sign negates in base 10 for signed types and is refused otherwise; nothing but white space is refused |
| `NumericString.SeparatorsPassedOver` | poco/NumericString.h:146-158 | in base 10 the separator asked for may stand anywhere among the digits |
| `NumericString.OthersRejected` | poco/NumericString.h:107-160 | a string with any other character is not accepted |
| `NumericString.ReverseAt` | poco/NumericString.h:323-330 | reversal puts each character where it belongs |
| `NumericString.DigitsComeBack` | poco/NumericString.h:104-163 | printed digits and separators scan back to what the type stores for the value, in every base the parser knows, for every value whose digits before the last pass the guard |
| `NumericString.GuardHolds` | poco/NumericString.h:105-117 | the guard against max/base never fires on the digits of a value in range |
| `NumericString.IntComesBack` | poco/NumericString.h:80-333 | for every value of a signed type of any width, `strToInt` undoes `intToStr` in base 10, with any width, space or zero fill, with or without commas, but for the minimum of a type as wide as `int` or wider, where it is undefined |
| `NumericString.UIntComesBack` | poco/NumericString.h:80-408 | it undoes `uIntToStr` for every value of an unsigned type of any width in bases 2 to 8, 10 and 16 |
| `NumericString.AboveMaximum` | poco/NumericString.h:105-157 | a number above an unsigned type's maximum, its digits but the last in range, is rejected if and only if those exceed the maximum's without its last; else it is accepted as what is left after one period |
| `NumericString.ReadOrRejected` | poco/NumericString.h:104-163 | for every integer type, base and string of digits: it and all its beginnings scan to their number when that is at most the maximum and are rejected when it is more, if and only if no beginning has the maximum's digits but a larger last one |
| `NumericString.LeadingSeparator` | poco/NumericString.h:284-294 | with commas, a number that is not negative is printed with one in front exactly when its number of digits is a multiple of three |

## Left out

- FreeList.EveryReachableStateIsSound: assumes fewer than 2^31 - 3 threads, so that reference counts stay below the flag bit, and clients that add only nodes they own, as `add` expects.
- Claims.InvKept: assumes that when a dequeue compares its position with the tail the two are less than half the 64-bit range apart (`Claims.InWindow`); `Claims.ModerateTrafficStaysInWindow` derives this from the traffic.
- ExplicitQueueTheorems.InvKept: assumes that `requisition_block` hands out no block that is in the ring, and that no allocation reaches 2^63 bytes.
- ImplicitQueueTheorems.InvKept: the same two assumptions, for blocks not yet returned. That blocks taken and returned by several queues keep to what `FreeList` assumes of its clients and promises them is not joined into one machine.
- EventLoop.NoWakeupLost: does not hold for functors that the loop's thread queues outside `loop()`; see Findings.
- ThreadPool.ExecutedInOrder: at most once and in order, not completion: tasks still queued at `stop` are dropped by the source.
- UtcTime.SecondsComeBack: for instants from Julian day 0 as far as the source's `int` arithmetic goes; beyond it the source overflows.
- NumericString.IntComesBack: `int` has 32 bits and narrower signed types wrap by two's complement, as C++20 requires and compilers before it do; where the behaviour is undefined the model's outcome says so and goes no further.
- C++ weak memory orders and fences: the steps interleave under sequential consistency.
- Objects shared between threads are modelled as state machines on values; update in place and aliasing are captured for the single-threaded classes only.
- `BLOCK_SIZE` is the default 32 and `MAX_SUBQUEUE_SIZE` unlimited; producer-private accesses are folded into the step before them, so `reset_empty` and linking a block in are one step.
- Element types whose constructors or assignments throw, and their roll-back paths; `enqueue_bulk`, whose roll-back keeps injected blocks.
- A bulk dequeue of an explicit producer asked for 0 items: its pass through the `do` loop writes nothing and is folded away.
- Queue tokens, the list of producers, destructors, move and swap, debug and memory-statistics code; thread-exit recycling, which a commented-out define disables.
- `eventHandling_`, which only debug checks read, and its statement's accidental place under `if (activeChannels_.size())`; timers, channel registration, `queueSize`; write and read failures of the eventfd other than overflow.
- `ThreadPool` before `start` and with no threads (`run` then calls the task directly), its init callback and task exceptions.
- `waitForSeconds` and the size queries of the blocking queue.
- Line-end search, `capacity` and string views of `Buffer`; a new array holds zeros where the source's vector value-initialises.
- The output side of the transport and its `SOCKET_SEND` states; retries inside `read_sock_buffer_len` are one read; the handler of a complete frame is taken to call `GetMsg` once, as `examples/tstlesrv/clientctx.cpp:182` does.
- UTF-32, flipped byte order, ASCII and Latin encodings, `escape`/`unescape` and the Unicode tables.
- Fill characters other than space and zero, separators other than the comma, and prefixes are printed by the model but are outside the round-trip theorems; the terminator is written one place beyond `size`, as in the source, so the array must have it.
- Floating-point conversion, locale, time-zone files and local time.
- Sockets, epoll, libevent, thrift, logging, file I/O and the sort, vector and shared-pointer demonstrations.
