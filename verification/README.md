# GarageMQ in Dafny

A model of the hard parts of GarageMQ, an AMQP 0-9-1 broker, and proofs about it. Each file whose Go
original updates fields step by step is a class or a method with loops, proved to perform a step function on
values; the theorems are about those step functions and about whole runs of them. Every operation that holds a
lock in the original is one atomic step.

**The message queue** (`Ring`, `SafeQueue`, `Ascending`, `Messages`, `BackedQueue`, `Queue`, `QueueRuns`,
`LoadRace`). A sharded deque keeps the head of a queue in RAM; overflow goes to a persistent and a transient store
and is merged back by message ID. Define the *view* of a queue as its RAM part followed by the stored messages with
larger IDs, in ID order. Over every legal run the view behaves as one plain deque (`BackedQueue.RunRefinesDeque`),
and everything is delivered in order however far the queue outgrew its RAM part (`BackedQueue.DrainDeliversAll`),
exactly when there is room for two messages (`QueueRuns.NeverStrandsIff`). The loader's two goroutines share a
variable; over all their interleavings it is proved exactly when they can lose track of stored messages, and a legal
run that ends there is given (`LoadRace.EarlyClearIff`, `LoadRace.RaceStrands`). What a queue has lost track of is
never delivered again, whatever follows (`QueueRuns.NeverReturned`).

**The message store** (`MsgStorage`, `StorageKeys`, `Recovery`, `SharedStore`). Coalesced flushing equals direct
writing over every interleaving of lawful writes and flushes, and the exact step at which the two differ is
characterised. Keys are injective; byte order equals ID order exactly under a stated arithmetic condition. Together
with the queue this gives restart recovery end to end (`Recovery.RestartRecovers`), through any number of restarts
(`Recovery.RestartsKeepCrashInv`), and over the one database all queues share, with the exact condition on the keys
found there (`SharedStore.SharedRestartRecoversIff`).

**The channel protocol** (`Qos`, `Session`, `Channel`, `Prefetch`, `Broker`, `Confirms`, `Assembly`, `Dispatch`).
Taking any number of messages and closing the channel restores the order of every queue; prefetch limits hold over
whole runs; for a broker of any number of channels, connections and queues the counters add up and every message pushed
is in exactly one place (`Brokers.RunConserves`). Every publisher confirm of a run waits for all queues and for all
disk writes exactly when no matched queue goes missing in it (`Confirms.NeverEarlyIff`). Once a message is at rest it
has been confirmed exactly when no queue lost it on the way, by ignoring the push or by an acknowledgement that met its
write in the same flush, or when one was missing; provided that it is not persistent or all its queues are durable, for
otherwise it may go unconfirmed with nothing lost (`Confirms.ConfirmedUnlessLostIff`). No run confirms it twice exactly
when it is not persistent or at most one of its queues is durable (`Confirms.AtMostOnceIff`). A wake-up serves the
nearest willing consumer, and none that is always willing starves.

**The codec and its generator** (`Bytes`, `Tables`, `TableIO`, `Fields`, `Schema`, `Properties`, `StoredMessage`).
Tables of the Rabbit dialect, property lists with any subset of properties, and stored messages round trip; the code
emitted for every method schema with bit runs of at most eight round trips.

**Topic bindings** (`Topic`, `TopicExactness`, `TopicCompiler`, `TopicText`, `TopicStars`). The expression built for a
pattern never misses a key of the word-level rule of section 3.1.3.3 of AMQP 0-9-1, and agrees with the rule on all
keys exactly for the patterns `TopicExactness.Exact` describes. The rewriting is proved on the characters of every
routing key, and it is proved for which keys its parentheses match.

`Words`, `Seqs` and `Options` hold word sizes, regrouping of lists and the option type for all of them.

Where the code does not meet the obvious claim, the claim is stated with the exact condition under which it holds,
and a lemma gives an input, or a run of the code's own steps from a new state, where it fails:

- purging a deque: `Ring.PurgeValidIff`, with `Ring.PurgeStarves` and `Ring.PurgeSwallows` for the two ways it fails;
- purging a queue: `BackedQueue.PurgeEmptiesIff` and `Queues.PurgeWorksIff`, with `QueueRuns.PurgeLeavesTransient` and
  `Queues.PurgeBreaksDeque`; purging a store: `MsgStorages.PurgeSurvivesIff`, with `MsgStorages.PurgedMessageReturns`;
- a restart after a purge: `Recovery.PurgeKeepsCrashInvIff`, with `Recovery.PurgeLosesUnsettled`;
- loading with too little room: `QueueRuns.NeverStrandsIff`; loading in a race: `LoadRace.EarlyClearIff`, with
  `LoadRace.RaceStrands`;
- pushing out of ID order: `BackedQueue.PushAppendsIff`, with `QueueRuns.OldIdLost` (counted and never delivered),
  `QueueRuns.NewerIdOvertaken`, `QueueRuns.PurgedThenSkipped` (never delivered though nothing else is stored) and
  `QueueRuns.DeliveredTwice`;
- a refused pop that leaves earlier windows charged: `Qos.RefusalCleanIff`, with `Prefetch.RefusalLeaks`;
- the largest prefetch window: `Qos.FullWindowRefusesIff`, with `Qos.LargestWindowReopens`;
- keys out of ID order: `StorageKeys.ScanFollowsIdsIff`, with `StorageKeys.TenBeforeNine`; keys of a neighbour:
  `SharedStore.SharedRecoversIff`, with `SharedStore.NeighbourRecovered`;
- early confirms: `Confirms.NeverEarlyIff`, with `Confirms.ConfirmedBeforeWritten`;
- missing confirms: `Confirms.ConfirmedUnlessLostIff`, with `Confirms.CancelledNeverConfirmed`,
  `Confirms.NoDurableConfirmsIff`; twofold confirms: `Confirms.AtMostOnceIff`, with `Confirms.TwoQueuesConfirmTwice`;
- nested tables: `Tables.RewritableIff`, with `Tables.NestedTableStuck`;
- body frames that do not end at the announced size: `StoredMessage.StoredRoundTripIff` and
  `Assembly.AssembledOnceIff`, with `StoredMessage.UnannouncedFrameLost`, `Assembly.EmptyBodyNeverRouted` and
  `Assembly.ExtraFrameRoutesAgain`;
- topic patterns: `TopicExactness.ExactIff`, with `TopicExactness.HashGluesWords`, and `TopicStars.MatchedIff`, with
  `TopicStars.StarInsideRefused`.

The documentation of `AmqpQos.IsActive` says that both limits must be 0; the code asks for either to be non-zero,
and the model follows the code.

`dafny verify dfyconfig.toml` checks the whole project.

## Model

| member | source | states |
|---|---|---|
| Ring.PushRefines | safequeue/safequeue.go:42-61 | Push keeps the deque valid and appends to its contents, for every shard size |
| Ring.PushHeadRefines | safequeue/safequeue.go:64-82 | PushHead keeps it valid and prepends |
| Ring.PopRefines | safequeue/safequeue.go:85-112 | Pop on an empty deque returns nothing and changes nothing, otherwise it removes and returns the first element |
| Ring.RunRefines | safequeue/safequeue.go:42-131 | every interleaving of Push, PushHead, Pop and HeadItem gives the results and the contents a plain sequence would give |
| Ring.LengthFromPositions | safequeue/safequeue.go:115-125 | the length field is tailIdx * shardSize + tailPos - headPos, the number of live elements |
| Ring.PurgeValidIff | safequeue/safequeue.go:135-142 | DirtyPurge leaves a valid, empty deque exactly when headPos = tailPos |
| Ring.EmptiedPurges | safequeue/safequeue.go:135-142 | the positions agree whenever the deque was emptied by pops |
| Ring.PurgeStarves | safequeue/safequeue.go:135-142 | after a purge with headPos < tailPos no message pushed is ever returned: whatever the calls, they do not panic, and pops return what PushHead put there, last in first out, and nothing else |
| Ring.PurgeSwallows | safequeue/safequeue.go:135-142 | after a purge with headPos > tailPos exactly the first headPos - tailPos pushes are lost: until then the head is empty, and from then on every interleaving of calls is answered as by an empty deque |
| SafeQueues.SafeQueue.constructor | safequeue/safequeue.go:28-39 | one blank shard, empty contents |
| SafeQueues.SafeQueue.Push | safequeue/safequeue.go:42-61 | on heap shards: the row of slots becomes that of Ring.Push; a valid deque stays valid and its contents grow at the end |
| SafeQueues.SafeQueue.PushHead | safequeue/safequeue.go:64-82 | the same for Ring.PushHead, with contents growing at the front |
| SafeQueues.SafeQueue.DirtyPop | safequeue/safequeue.go:94-112 | the slots and the result are those of Ring.Pop, also when the deque is not valid |
| SafeQueues.SafeQueue.Pop | safequeue/safequeue.go:85-90 | a valid deque stays valid; the head is returned and removed, or nothing when empty |
| SafeQueues.SafeQueue.HeadItem | safequeue/safequeue.go:129-131 | the first element, without removing it |
| SafeQueues.SafeQueue.Length | safequeue/safequeue.go:115-119 | the number of elements |
| SafeQueues.SafeQueue.DirtyPurge | safequeue/safequeue.go:135-142 | the slots become those of Ring.Purge: positions stay where they were |
| Messages.FirstOfMerge | queue/queue.go:287-325 | limiting both stores to at least n before merging does not change the first n of the merge |
| Messages.MergeOrders | queue/queue.go:340-366 | merging the listings of two stores lists their union in ID order |
| BackedQueue.PushAppends | queue/queue.go:173-219 | a push with a new largest ID appends to the view and keeps the spill invariant, in RAM or spilled |
| BackedQueue.PopTakesHead | queue/queue.go:227-264 | a pop returns nothing and changes nothing, or returns and removes the head of the view |
| BackedQueue.RequeuePrepends | queue/queue.go:418-441 | a requeue of a message that was in RAM prepends it to the view |
| BackedQueue.AckKeepsView | queue/queue.go:394-415 | an acknowledgement leaves the view alone |
| BackedQueue.NeedleAtLeastTwo | queue/queue.go:266-275 | a load that is not skipped never works with a wrapped needle: it is maxInRam minus the RAM length, at least 2 |
| BackedQueue.LoadTakesOldest | queue/queue.go:266-338 | one load takes exactly the oldest stored messages beyond RAM: limits, merge and cut together select a first part of the union, at least one message long when any exists |
| BackedQueue.LoadKeepsFlagIff | queue/queue.go:287-338 | after a load the queue counts as swapped exactly when something was stored beyond RAM before it |
| BackedQueue.LoadKeepsView | queue/queue.go:266-338 | a load changes neither the view nor the invariant |
| BackedQueue.LoadMakesProgress | queue/queue.go:266-338 | with maxMessagesInRAM >= 2 the head of a non-empty view is in RAM after a load |
| BackedQueue.RunRefinesDeque | queue/queue.go:173-441 | over every legal run of pushes, pops, requeues, acks and loads the view is what a plain deque would hold after the same results, and queueLength is its length |
| BackedQueue.DrainDeliversAll | queue/queue.go:222-337 | loading and popping delivers everything the queue holds, in order |
| BackedQueue.PushAppendsIff | queue/queue.go:173-219 | a push appends to the view and keeps the spill invariant exactly when no stored ID is larger and, with room in RAM, none in RAM is; without room, when the ID lies beyond lastMemMsgID and, on a spilled queue, not before the position the next load scans from |
| BackedQueue.PurgeEmptiesIff | queue/queue.go:444-460 | a purge empties the view, and leaves the length right, exactly when no transient message waits beyond RAM |
| BackedQueue.RecoverRebuilds | queue/queue.go:369-391 | recovery yields a view of all stored messages in ID order, the right length and the spill invariant, whether or not they fit in RAM |
| QueueRuns.SpilledReached | queue/queue.go:173-264 | pushes fill RAM with one message more than its limit and spill the next, for every limit; the spilled queue, after any pops, is reached by a legal run of a new one |
| QueueRuns.NeverStrandsIff | queue/queue.go:266-275 | over all legal runs of a new queue a load always brings the head into RAM exactly when maxMessagesInRAM >= 2 |
| QueueRuns.PurgeLeavesTransient | queue/queue.go:444-460 | for every limit, a run after which a purge reports an empty queue that still holds the spilled message |
| QueueRuns.OldIdLost | queue/queue.go:173-219 | for every limit, a run after which a push of an older ID is counted, joins no view, and is out of reach for good |
| QueueRuns.NewerIdOvertaken | queue/queue.go:173-219 | for every limit, a run after which a push of an ID between RAM and store overtakes |
| QueueRuns.PurgedThenSkipped | queue/queue.go:444-460 | for every limit, a queue that spilled, was emptied and purged takes a message with an ID before its scan position into its view and its count, and never delivers it |
| QueueRuns.DeliveredTwice | queue/queue.go:204-215 | for every limit of at least two, a run without requeues in which message 2 is delivered twice, because an older message spilled first |
| QueueRuns.NeverReturned | queue/queue.go:173-441 | a message that is not in RAM, not with a consumer, and before the scan position, or on a queue that does not count as swapped, is returned by no pop of any legal history that follows |
| LoadRace.ClearsIff | queue/queue.go:284-315 | over all interleavings of the two goroutines: some schedule clears both flags exactly when the walks apart would, or when both find something and one of them ends at lastMemMsgID |
| LoadRace.KeepsIff | queue/queue.go:284-315 | some schedule keeps a flag exactly when the walks apart would |
| LoadRace.EarlyClearIff | queue/queue.go:266-338 | a load can clear swappedToDisk with messages pending exactly when one store holds the message RAM ends with and nothing beyond it while the other holds more |
| LoadRace.EarlyClearBreaksIff | queue/queue.go:266-338 | that breaks the spill invariant exactly when the load could not take all that was pending |
| LoadRace.EarlyClearStrands | queue/queue.go:266-338 | what is pending then is out of reach for good |
| LoadRace.RaceStrands | queue/queue.go:266-338 | a legal run of a new durable queue to a state where it happens: two messages stay behind, out of reach for good |
| Queues.MergeSortedMessageSlices | queue/queue.go:340-366 | the index loop returns the merge of the two lists by ID |
| Queues.FirstSorted | queue/queue.go:317-327 | the merge cut to its first needle messages |
| Queues.Queue.constructor | queue/queue.go:71-107 | a new queue is inactive and empty, over a deque of any shard size |
| Queues.Queue.Push | queue/queue.go:173-219 | performs BackedQueue.Push on the fields |
| Queues.Queue.PopQos | queue/queue.go:227-264 | performs BackedQueue.PopQos, with the windows of the list charged as Qos.Charge says |
| Queues.Queue.MayBeLoadFromStorage | queue/queue.go:266-338 | for every interleaving of the two goroutines: moves what BackedQueue.Load moves, and leaves the flag this interleaving leaves, which is one that LoadRace.MayLeave allows |
| Queues.Walk | queue/queue.go:280-315 | both goroutines step by step over the variable they share: each collects its scan, and the flags are those of the given schedule |
| Queues.Queue.PushAllBut | queue/queue.go:327-335 | moves the found messages into RAM, all but the one that is there already |
| Queues.Queue.LoadFromMsgStorage | queue/queue.go:369-391 | performs BackedQueue.Recover |
| Queues.Queue.AckMsg | queue/queue.go:394-415 | performs BackedQueue.AckMsg |
| Queues.Queue.Requeue | queue/queue.go:418-441 | performs BackedQueue.Requeue |
| Queues.Queue.Purge | queue/queue.go:444-460 | returns the former length and clears what the source clears; the deque keeps its positions, so the queue is valid afterwards exactly when they agree, and then BackedQueue.Purge was performed |
| Queues.PurgeWorksIff | queue/queue.go:444-460 | a purge leaves a queue that works and is empty exactly when headPos = tailPos and no transient message waits |
| Queues.PurgeBreaksDeque | queue/queue.go:444-460 | one push and a purge leave a queue that looks empty over a deque that no longer works |
| MsgStorages.BufferedEqualsDirectIff | msgstorage/msgstorage.go:75-177 | buffering one operation and writing it at once agree after the next flush exactly in the cases Safe lists |
| MsgStorages.CoalescingEqualsDirect | msgstorage/msgstorage.go:75-177 | for every interleaving of lawful adds, updates, deletes and flushes, the database after a flush is what direct writing gives |
| MsgStorages.MsgStorage.Add | msgstorage/msgstorage.go:151-161 | performs the add step on the buffers, for the bytes Marshal makes of the message |
| MsgStorages.MsgStorage.Update | msgstorage/msgstorage.go:164-169 | performs the update step |
| MsgStorages.MsgStorage.Del | msgstorage/msgstorage.go:172-177 | performs the delete step |
| MsgStorages.MsgStorage.Persist | msgstorage/msgstorage.go:75-142 | performs the flush of the marshalled buffers in whatever order the maps are iterated; the messages confirmed are the adds not deleted in the same flush |
| MsgStorages.CancelAdds | msgstorage/msgstorage.go:84-95 | a deleted key loses its add and its update, and a delete that met its add goes too |
| MsgStorages.BuildBatch | msgstorage/msgstorage.go:84-130 | the whole batch takes the database to the flushed one |
| MsgStorages.SetAll | msgstorage/msgstorage.go:97-120 | the batch built in any order sets exactly the given entries, each to what Marshal gives |
| MsgStorages.DelAll | msgstorage/msgstorage.go:122-130 | the batch built in any order deletes exactly the given keys |
| MsgStorages.MsgStorage.PurgeQueue | msgstorage/msgstorage.go:228-231 | deletes exactly the keys of the queue from the database and leaves the buffers alone |
| MsgStorages.PurgeSurvivesIff | msgstorage/msgstorage.go:228-231 | after the next flush the purged queue is still empty exactly when no add or update of it was buffered without its delete |
| MsgStorages.PurgedMessageReturns | msgstorage/msgstorage.go:228-231 | a message purged before its write was flushed is in the database after the flush |
| StorageKeys.KeyInjective | msgstorage/msgstorage.go:241-243 | a key determines its queue and its ID, for all 64-bit IDs and all queue names |
| StorageKeys.ScanMeetsIff | msgstorage/msgstorage.go:206-225 | the prefix scan of a queue meets a key exactly when it belongs to that queue or to one whose name extends it by a dot |
| StorageKeys.EqualDigits | msgstorage/msgstorage.go:241-243 | for equal digit counts byte order is numeric order |
| StorageKeys.KeyOrderNumericIff | msgstorage/msgstorage.go:241-243 | two keys of one queue sort like their IDs exactly when the smaller one, scaled to the length of the larger, does not exceed it |
| StorageKeys.KeyOrderIff | msgstorage/msgstorage.go:241-243 | the same for all 64-bit IDs: those from 2^63 on are printed negative, come first, and sort the other way round |
| StorageKeys.ScanFollowsIdsIff | storage/storage_badger.go:205-227 | the database hands out the messages of a queue in ID order exactly when every smaller ID stored is listed before every larger one |
| StorageKeys.EqualDigitsFollow | msgstorage/msgstorage.go:241-243 | so it does for IDs of equally many digits |
| StorageKeys.TenBeforeNine | msgstorage/msgstorage.go:241-243 | message 10 is listed before message 9 |
| Recovery.RunKeepsCrashInv | queue/queue.go:173-441 | at every point of a legal run the persistent store holds exactly the persistent messages that are queued or unsettled |
| Recovery.RunWritesLawful | queue/queue.go:173-441 | the writes of a legal run are in lawful order, and writing them directly gives the queue's own store |
| Recovery.RestartRecovers | queue/queue.go:369-391 | after any legal history whose writes reached the database in any number of flushes, the restarted queue holds exactly the persistent messages that were queued or unsettled, in ID order, with the right length |
| Recovery.PurgeKeepsCrashInvIff | queue/queue.go:444-460 | a purge leaves the queue fit for a restart exactly when no persistent message is delivered and unsettled and no transient one waits beyond RAM |
| Recovery.PurgeLosesUnsettled | queue/queue.go:450-452 | a message delivered and not settled when the queue is purged does not survive a restart |
| Recovery.StartedCrashInv | queue/queue.go:71-107 | a new started queue may begin such a history |
| Recovery.RecoveredCrashInv | queue/queue.go:369-391 | so may a queue that was recovered and started |
| Recovery.RestartsKeepCrashInv | queue/queue.go:369-391 | through any number of restarts the queue stays fit for the next one |
| SharedStore.OwnRun | msgstorage/msgstorage.go:75-177 | whatever other queues write to the shared store, a queue's part is what its own writes and the flushes make of it |
| SharedStore.CountedSplit | msgstorage/msgstorage.go:206-225 | the keys counted for a queue are its own and those of queues whose name extends it by a dot; the scan meets all its own |
| SharedStore.SharedLengthIff | queue/queue.go:369-391 | the recovered length is right exactly when no key of such a neighbour is stored, or met by the scan when it stays below the limit |
| SharedStore.SharedRecoversIff | queue/queue.go:369-391 | the queue comes back from the shared database as from a store of its own exactly under that condition |
| SharedStore.EqualDigitsRecover | queue/queue.go:369-391 | without neighbours, IDs of equally many digits meet it |
| SharedStore.SharedRestartRecoversIff | queue/queue.go:369-391 | over the shared database and any writes of other queues, a restart restores exactly the persistent messages that were queued or unsettled, in order and with the right length, exactly when no such neighbour is counted and the keys that are loaded carry the least IDs, in order |
| SharedStore.PurgeSparesIff | msgstorage/msgstorage.go:228-231 | a purge spares another queue exactly when that one holds nothing or its name does not extend the purged one by a dot |
| SharedStore.NeighbourRecovered | queue/queue.go:369-391 | an empty queue a is restored with the message of queue a.b |
| Qos.IncCounts | qos/qos.go:49-63 | the count never exceeds the window, and a window below 65535 counts an accepted delivery exactly once |
| Qos.FullWindowRefusesIff | qos/qos.go:49-63 | a full window refuses exactly when it is below 65535 or its size limit refuses: at 65535 the count wraps |
| Qos.LargestWindowReopens | qos/qos.go:49-63 | from an empty window of 65535, the 65536th delivery is accepted and leaves the count at 0 |
| Qos.RefusalCleanIff | queue/queue.go:242-252 | a refused pop leaves every window as it was exactly when the first active one refuses |
| Qos.AmqpQos.Update | qos/qos.go:35-38 | new limits, same counts |
| Qos.AmqpQos.TryInc | qos/qos.go:49-63 | performs Qos.Inc in wrapping arithmetic |
| Qos.AmqpQos.Discharge | qos/qos.go:66-81 | performs Qos.Dec, stopping at 0 |
| Qos.ChargeAll | queue/queue.go:242-252 | the loop over the qos list performs Qos.Charge on the objects |
| Sessions.NackMultipleRestores | server/channel.go:539-572 | a multiple nack with requeue puts exactly the selected messages of a queue in front of it in ascending tag order, and releases exactly the selected tags |
| Sessions.CloseRestores | server/channel.go:438-453 | closing puts all held messages of a queue back in front of it in tag order |
| Sessions.RunKeepsWhole | consumer/consumer.go:74-123 | over every run of deliveries, gets, loads and publishes, held messages followed by the view stay the original sequence plus what was published |
| Sessions.DeliverThenCloseRestores | server/channel.go:438-453 | taking any number of messages of any queues on one channel and closing it leaves every queue as if they had never been delivered |
| Prefetch.FetchCharges | queue/queue.go:242-260 | what one acknowledged fetch can do to the channel: nothing, a charge without a message because the second window refused, or a charge and one new tag |
| Prefetch.PrefetchSafe | qos/qos.go:49-81 | for a fixed limit 0 < p < 65535, over every run the unacknowledged messages are at most currentCount, which is at most p |
| Prefetch.CountExact | qos/qos.go:49-81 | while no other window is active, currentCount is the number of unacknowledged messages |
| Prefetch.RefusalLeaks | queue/queue.go:242-252 | a session in which one get leaves a charge behind and no message |
| Prefetch.LeakStarvesForever | queue/queue.go:242-252 | a channel whose window is full of leaked charges never receives an acknowledged message again |
| Channels.AcksCommute | server/channel.go:526-537 | two acknowledgements give the same state in either order |
| Channels.AckOrderIrrelevant | server/channel.go:501-524 | a multiple ack has one result whatever order the map is walked in |
| Channels.Channel.HandleAck | server/channel.go:501-524 | settles one tag or all selected ones; an unknown tag changes nothing and is reported |
| Channels.Channel.HandleReject | server/channel.go:539-572 | settles the selected tags from the largest down, with or without requeue; an unknown tag changes nothing and is reported |
| Channels.Channel.SettleMsg | server/channel.go:526-608 | one settlement: queue, ack store and the windows that were charged |
| Channels.Channel.Close | server/channel.go:438-453 | performs Sessions.Close |
| Channels.Channel.NextDeliveryTag | server/channel.go:481-483 | the counter grows by one and its new value is returned |
| Channels.Channel.RetrieveAndSendMessage | consumer/consumer.go:74-123 | performs Sessions.Deliver |
| Channels.Channel.BasicGet | server/basicMethods.go:96-142 | performs Sessions.Get |
| Brokers.FreshBroker | queue/queue.go:71-99 | new queues and empty channels satisfy the conservation invariant |
| Brokers.EffectKeeps | server/channel.go:526-608 | whatever one channel does keeps the account of every queue |
| Brokers.AccountAddsUp | queue/queue.go:181-187 | total = ready + unacked, and every message pushed is queued, held or done, in one place only |
| Brokers.RunConserves | queue/queue.go:173-441 | over every run of every channel: total = ready + unacked, ready = queueLength, unacked = ackStore entries of that queue over all channels, and pushed = queued + held + settled |
| Confirms.StagesAddUp | msgstorage/msgstorage.go:132-141 | actual + buffered + committed but uncounted + not yet pushed + cancelled = expected |
| Confirms.ConfirmableIffHandled | amqp/types.go:50-52 | CanConfirm holds exactly when every matched queue has taken the message and every write that is due is committed |
| Confirms.NeverEarlyIff | server/channel.go:285-307 | in every run, all confirms go out in states where every queue has handled the message exactly when no matched queue goes missing |
| Confirms.ConfirmWaitsIff | server/channel.go:285-307 | the same for one step: a confirm finds the message handled exactly when it is not the one for a missing queue |
| Confirms.ConfirmedBeforeWritten | server/channel.go:286-298 | a run in which the second queue is gone and the message is confirmed while its only write waits in the buffer |
| Confirms.ConfirmedMeansHandledIff | server/vhost.go:93-105 | in every run a confirmed message is handled by all its queues, from then on, exactly when no matched queue went missing |
| Confirms.TransientConfirmedOnce | server/channel.go:281-307 | a message that is not persistent is confirmed exactly once, when its last queue takes it or when one of them is missing |
| Confirms.ConfirmedUnlessLostIff | server/channel.go:285-307 | in every run that comes to rest a message is confirmed exactly when no queue lost it or one was missing; this holds exactly when it is not persistent or all its queues are durable |
| Confirms.CancelledNeverConfirmed | msgstorage/msgstorage.go:84-95 | a message for one durable queue, acknowledged before its write was flushed, is at rest and never confirmed |
| Confirms.NoDurableConfirmsIff | server/channel.go:304-306 | a persistent message with no durable queue is confirmed only when one of its queues is missing |
| Confirms.AtMostOnceIff | msgstorage/msgstorage.go:136-141 | no run confirms the message twice exactly when it is not persistent or at most one of its queues is durable |
| Confirms.TwoQueuesConfirmTwice | msgstorage/msgstorage.go:136-141 | a run in which one flush of two durable queues confirms the message twice |
| Bytes.BeRoundTrip | amqp/readers_writers.go:104-157 | big-endian integers that fit their width are read back |
| Bytes.ShortstrRoundTripIff | amqp/readers_writers.go:175-203 | a short string is read back exactly when it is shorter than 256 bytes |
| Bytes.LongstrRoundTrip | amqp/readers_writers.go:207-235 | a long string below 2^32 bytes is read back and nothing after it is consumed |
| Tables.Dec | amqp/readers_writers.go:439-530 | reading a value ends on every byte string and consumes at least one byte when it succeeds |
| Tables.ValueRoundTrip | amqp/readers_writers.go:439-530 | every value the writer accepts is read back, up to the stated normalisation, with the input after it untouched |
| Tables.TableRoundTrip | amqp/readers_writers.go:240-263 | a table written in any iteration order is read back normalised, with the input after it untouched |
| Tables.OrderIrrelevant | amqp/readers_writers.go:535-547 | two iteration orders of one map read back as the same entries |
| Tables.RewritableIff | amqp/readers_writers.go:685-768 | a value that was read can be written again exactly when no table was nested in it |
| Tables.TableRewritableIff | amqp/readers_writers.go:519-524 | the same for a table: only nested tables stand in the way |
| Tables.NestedTableStuck | amqp/readers_writers.go:519-524 | a table that holds an empty table is written and read, and what was read cannot be written |
| TableIO.ReadValue | amqp/readers_writers.go:439-530 | the imperative reader returns what Tables.Dec returns and leaves the reader where it says |
| TableIO.ReadFixed | amqp/readers_writers.go:445-486 | reads the number each type octet calls for and makes the Go value of it; an unknown octet is an error |
| TableIO.ReadItems | amqp/readers_writers.go:782-800 | the array loop returns all values of its buffer or fails |
| TableIO.ReadEntries | amqp/readers_writers.go:240-263 | the table loop returns all entries of its buffer, later keys replacing earlier ones, or fails |
| TableIO.WriteValue | amqp/readers_writers.go:685-768 | succeeds exactly for writable values and appends their encoding |
| TableIO.WritePlain | amqp/readers_writers.go:687-752 | writes the type octet and the bytes of every value that holds no others |
| TableIO.WriteItems | amqp/readers_writers.go:770-780 | succeeds exactly when every item is writable, and writes them in order |
| TableIO.WriteEntries | amqp/readers_writers.go:535-547 | succeeds exactly when every value is writable, and writes keys and values in order |
| Fields.FieldRoundTrip | protocol/templates.go:126-131 | a field of every domain but bit is read back by the reader the generator names for it |
| Schema.SaveMethod | protocol/protogen.go:128-155 | the annotation loop gives each bit its place in its run and marks the last bit of every run and nothing else |
| Schema.CompilesIff | protocol/templates.go:116-161 | the emitted code compiles exactly when the method has at most one run of bits, of at most eight |
| Schema.RunIsOneOctet | protocol/templates.go:138-161 | a run of bits is written as one octet that holds every one of them |
| Schema.GeneratedRoundTrip | protocol/templates.go:116-161 | for every method with runs of at most eight bits the emitted Read undoes the emitted Write and consumes exactly its bytes |
| Properties.FlagsAreOwn | protocol/protogen.go:118-126 | every property of a class of at most 16 has its own flag bit, and with at most 15 the continuation bit stays clear |
| Properties.PropsRoundTrip | protocol/templates.go:59-82 | every subset of the properties is read back from its flags and bytes, absent ones stay absent, and nothing more is consumed |
| Properties.WriteProps | amqp/methods_generated.go:2646-2747 | fails exactly when a table cannot be written; otherwise the flags announce exactly the present properties and the buffer holds them in order |
| Properties.ReadProps | amqp/methods_generated.go:2528-2643 | reads exactly the announced properties |
| StoredMessage.FrameRoundTripIff | amqp/readers_writers.go:51-101 | a frame is read back exactly when its payload is shorter than 2^32 - 1 bytes |
| StoredMessage.ReachesIff | amqp/types.go:149-155 | the loop condition of Unmarshal in terms of sizes: all frames but the last stay below the body size, all together reach it |
| StoredMessage.HeaderRoundTrip | amqp/readers_writers.go:817-883 | a content header with any subset of properties is read back, tables normalised |
| StoredMessage.StoredRoundTripIff | amqp/types.go:103-158 | a stored message is restored in full exactly when its frames first reach Header.BodySize at the last one |
| StoredMessage.UnannouncedFrameLost | amqp/types.go:149-155 | a body frame of a message that announces no body is dropped |
| StoredMessage.PersistedIff | msgstorage/msgstorage.go:97-120 | a message survives the flush, which ignores a failed Marshal, exactly when its headers can be written and its frames end at the announced size |
| StoredMessage.SecondMarshalIff | amqp/types.go:103-130 | a restored message can be stored again exactly when its headers nest no table |
| StoredMessage.WriteContentHeader | amqp/readers_writers.go:855-883 | appends the header encoding, or fails when a property cannot be written |
| StoredMessage.Message.Append | amqp/types.go:97-100 | the frame goes to the end and the size grows in 64-bit arithmetic |
| StoredMessage.Message.MarshalTo | amqp/types.go:103-130 | returns the stored form, or fails when a property cannot be written |
| StoredMessage.Message.UnmarshalFrom | amqp/types.go:133-158 | restores exactly what the value-level reader restores, or fails when it fails |
| Topic.PlusIff | binding/binding.go:114 | the group that stands for # matches exactly the strings without a line break |
| Topic.NeverMisses | binding/binding.go:92-147 | every key the word-level rule accepts is accepted by the expression |
| TopicExactness.ExactAccepts | binding/binding.go:92-147 | for an exact pattern every accepted key is accepted by the word-level rule |
| TopicExactness.OverAccepts | binding/binding.go:92-147 | every other pattern comes with a key that the expression accepts and the rule refuses |
| TopicExactness.ExactIff | binding/binding.go:92-147 | the expression and the rule agree on all keys exactly when each run of # stands next to *, before it when leading and after it otherwise, and runs between words are even |
| TopicExactness.HashGluesWords | binding/binding.go:124 | a.#.b accepts ab |
| TopicCompiler.LoopsCompile | binding/binding.go:109-125 | on the pieces of the expression, both loops and the two replacements build what the other topic members speak about |
| TopicText.StripLeading | binding/binding.go:109-115 | on the characters: the loop over leading # ends and does what it does on the pieces |
| TopicText.StripTrailing | binding/binding.go:117-123 | the same for the loop over trailing # |
| TopicText.InnerReplaced | binding/binding.go:124 | replacing the text of an inner # from left to right is replacing the pieces |
| TopicText.SplitPattern | binding/binding.go:94 | splitting the routing key gives back the parts of the pattern |
| TopicText.BuildRegexp | binding/binding.go:92-129 | for every routing key: trimming, splitting, escaping, joining, both loops and all replacements give the text of the rewritten pieces of the key |
| TopicText.PatternBuilds | binding/binding.go:92-129 | for a key of plain words, stars and hashes these are the pieces the other topic members speak about |
| TopicText.RawJoined | binding/binding.go:96-106 | escaping the parts and joining them gives the text of the pieces, for all parts |
| TopicStars.MatchedIff | binding/binding.go:92-129 | the expression closes as many parentheses as it opens exactly when every * in the key stands alone between its dots |
| TopicStars.StarInsideRefused | binding/binding.go:92-129 | the key a*b fails that |
| Dispatch.Served | queue/queue.go:123-139 | a wake-up serves nobody exactly when nobody accepts, and otherwise a consumer that accepts, where the cursor then stands |
| Dispatch.BoundedWait | queue/queue.go:123-139 | a consumer that always accepts is served before the cursor has gone round once, whatever the others do |
| Dispatch.EachExactlyOnce | queue/queue.go:123-139 | n wake-ups of n accepting consumers serve each exactly once |
| Dispatch.NextInv | queue/queue.go:498-544 | every add, remove and wake-up keeps the cursor in range and an exclusive consumer alone |
| Dispatch.RunInv | queue/queue.go:498-544 | so does every run |
| Dispatch.ReportedIff | queue/queue.go:532-544 | in every history of a new queue, a removal has it report itself exactly when it is an auto-delete queue left without consumers and somebody tried to consume before, refused or not |
| Dispatch.ReportedTwice | queue/queue.go:532-544 | a second removal reports the empty queue again |
| Dispatch.Dispatcher.WakeUp | queue/queue.go:123-139 | performs the wake-up, asks each consumer at most once, and serves the first that accepts |
| Dispatch.Dispatcher.AddConsumer | queue/queue.go:498-519 | refuses on an inactive or exclusively used queue, otherwise appends; an attempt on an active queue is remembered |
| Dispatch.Dispatcher.RemoveConsumer | queue/queue.go:523-544 | cuts the first consumer of that tag out, moves the cursor, and tells whether the queue reports itself for auto-deletion |
| Assembly.AssembledOnceIff | server/channel.go:216-250 | from any state, publish, header and frames route the whole message once, at the last frame, exactly when the size is first reached there; the frames keep their order |
| Assembly.EndsWithLastIff | amqp/types.go:97-100 | for a non-empty body that is the condition under which the message can be stored and restored |
| Assembly.StreamAssembles | server/basicMethods.go:52-70 | over every conforming stream in confirm mode each publish is routed once, in order, and the i-th carries tag i |
| Assembly.EmptyBodyNeverRouted | server/channel.go:216-232 | a zero-length message without body frames is never routed |
| Assembly.ExtraFrameRoutesAgain | server/channel.go:234-250 | a body frame after the last routes the message again, under the same tag |
| Assembly.Assembler.BasicPublish | server/basicMethods.go:52-70 | performs the publish step, or fails and changes nothing |
| Assembly.Assembler.HandleContentHeader | server/channel.go:216-232 | performs the header step, or fails and changes nothing |
| Assembly.Assembler.HandleContentBody | server/channel.go:234-250 | performs the body step and returns the message it routes |

## Left out

- Interleavings inside an operation, other than those of LoadRace: every lock-protected operation is one step, and
  queue operations see buffered writes at once.
- Queues.Queue: its RAM part is the row of slots that SafeQueues.SafeQueue is proved to keep on the heap, not the heap
  object itself.
- MsgStorages.MsgStorage: takes Marshal as a function from messages to bytes; StoredMessage.PersistedIff says what the
  bytes of a message are worth.
- SharedStore.SharedRestartRecoversIff: asks for IDs below 2^63; StorageKeys.KeyOrderIff says how the others sort.
- TopicText.BuildRegexp: stops before the expression is compiled; that the Go regular expressions give its text the
  language of Topic.Matches is taken as given.
- Topic.NeverMisses: speaks of patterns whose words are *, #, or free of dots, stars, hashes, backslashes and line
  breaks; for other keys the expression is given by TopicText.BuildRegexp and not compared with the rule.
- Schema.GeneratedRoundTrip: the emitted text is given by its meaning, and the Go compiler by the two rules it
  would break; names, documentation, constants and domain aliases are not modelled.
- StoredMessage.StoredRoundTripIff: time stamps are whole seconds, floats are their bit patterns, and the cached
  flag word of a header is not a field of its own.
- Confirms.NeverEarlyIff: a message for a missing exchange, or one that no queue matches, is confirmed at once; it has
  no queues to wait for and is not modelled.
- Assembly.StreamAssembles: confirm mode is on from the start.
- Dispatch.BoundedWait: assumes an unchanged consumer list, because every removal moves the cursor on.
- The AMQP 0-9-1 dialect of table values: its reader returns nothing on success.
- Queue deletion: it re-enters a held lock, so a sequential model says little.
- Networking, the handshake, heartbeats, clocks, authentication, configuration, the admin interface and metrics rates.
- The storage engines: a byte-ordered map with atomic batches is assumed.
- Direct, fanout and headers matching, and the individual generated methods.
