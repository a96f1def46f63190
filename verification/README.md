# Verified model of the configuration loader

The library reads compacted Kafka topics into in-memory stores. One binding
projects one topic into one store: a record key and payload are decoded, a
tombstone removes an entry, a filter may reject a value, and everything else is
an upsert. `Start` builds one consumer per binding, reads every topic to its end
in parallel, and hands each consumer to a goroutine that keeps applying changes
until the context is cancelled or some binding hits a fatal error.
`WaitUntilStopped` reports why the loader stopped.

This project models that pipeline and proves what the design rests on.

* **Meaning of a log** (`Kafka`, `Events`, `Replay`, `Rereading`, `Compaction`,
  `Interleaving`): the fold of records into a table, its closed form, and exactly
  when compaction, the interleaving of partitions and a restart are invisible.
* **One binding** (`Ledger`, `Registration`, `Store`, `StoreRuns`, `StoreWalks`,
  `Detection`, `Warmup`, `EmptyTopics`, `Loader`, `LoopExits`): the closure that
  applies a record, its counters, the store as a concurrent object, end-of-topic
  detection against a broker whose partitions may grow at every poll, and the two
  poll loops with exactly when and how they end.
* **The loader** (`Lifecycle`, `Agreement`, `Ownership`, `Fatal`, `Shutdown`,
  `Serving`, `Completeness`, `Cancellation`): Start, N warm-up and N serving
  goroutines and the context as a transition system. A run is any finite sequence
  of actions, so every theorem over runs is about every scheduling; an action that
  is not enabled changes nothing.
* **The driver** (`Driver`, `HandleProtocol`, `Throttle`, `Connection`,
  `Recovery`): one native handle behind a lock and a closed flag, and the
  rationing of its log, line by line.

Objects that the original updates in place are classes whose methods are proved
against functions on values (`Ledger.Enter`, `Warmup.WarmLoop`, `Loader.ServeLoop`,
`Connection.Hear`, `Throttle.Ask`). The transition systems use those same
functions as their steps, so what the lemmas say about a step is what the methods
compute (`Agreement` says so turn by turn). What those functions mean is in turn
proved without them, over decoders, native events and scripts
(`Replay.TableExact`, `Ledger.CountersExact`, `Ledger.EnterObserved`, `LoopExits`,
`Recovery`). Decoders, filter, key derivation and tombstone policy are parameters
of every theorem; the broker, the context and the clock are scripts or actions.

`dafny verify dfyconfig.toml` checks the whole project.

## Model

| member | source | states |
|---|---|---|
| Replay.LastWordDecides | registration.go:126-183 | closed form of the fold: for every log, starting table and key, the last record that upserts or deletes the key decides the lookup, and if there is none the starting table does |
| Replay.TableExact | registration.go:120-183 | what a store holds, without reference to the fold: key k holds v if and only if some record with a decodable key, no tombstone payload and payload decoding to v goes under k (its derived key if the binding derives keys, else its own), passes the filter shown that final key, and no later record sets k or is a tombstone whose own key is k |
| Replay.EntriesPassTheFilter | registration.go:172-177 | every entry passes the binding's filter under the key it is stored under, which with derived keys is not the key its record carried |
| Replay.OneMoreRecord | registration.go:126-183 | one more record sets its final key to its decoded value exactly when it decodes and is admitted, removes its own key exactly when that decodes and its payload is a tombstone, and otherwise changes nothing |
| Replay.ReplayIsIdempotent | developer-doc.md:24-25 | replaying a whole log over the result of any of its prefixes gives the table of replaying it once |
| Replay.RemovalExact | registration.go:137-146 | an entry has disappeared if and only if the last record that speaks about it is a tombstone whose own record key decodes to the entry's key |
| Rereading.RereadingIsHarmless | developer-doc.md:191-193 | at-least-once delivery: however often a reader jumps back to an earlier offset and applies records again, reaching the end leaves the table of one clean read |
| Compaction.LastKeptDecides | developer-doc.md:15-18 | the closed form for a compacted log: its last surviving word about a key decides the lookup |
| Compaction.CompactionExact | developer-doc.md:15-18 | compaction of a partition is invisible, for every legal choice of dropped records and every starting table, if and only if every key that is spoken about has an anchor: a record compaction must keep, after which nobody says otherwise |
| Compaction.FreshCompactionExact | developer-doc.md:15-18 | read into a new store, it is invisible for every legal choice if and only if every key that the log ever sets has an anchor |
| Compaction.FaithfulIsSafe | developer-doc.md:15-18 | it is invisible whenever the raw key alone decides whether a record is applied and upserts land under the key the record carries; key decoding need not be injective |
| Compaction.FilteringLosesEntries | registration.go:172-177 | with agreeing keys, a filtered record that supersedes an entry makes a restart lose the entry: the first hypothesis is needed |
| Compaction.BadPayloadLosesEntries | registration.go:148-156 | the same for a superseding record whose payload does not decode |
| Compaction.DerivedKeysLoseEntries | registration.go:158-170 | with every record applied but under keys derived from payloads, a restart loses an older entry: the second hypothesis is needed |
| Compaction.DerivedEntryRemoval | registration.go:161-163 | an entry under a derived key survives the tombstone of its own record key, yet a tombstone carrying the derived key does remove it |
| Interleaving.InterleavingExact | developer-doc.md:22-23 | the interleaving of partitions is invisible if and only if no two partitions end on different words about one key |
| Interleaving.PartitionedAgree | developer-doc.md:22-23 | partitions agree whenever records of different partitions never target the same decoded key |
| Interleaving.TablesDisjoint | developer-doc.md:22-23 | with keys partitioned, the tables of two partitions on their own share no key |
| Interleaving.DisjointUnion | developer-doc.md:22-23 | and the topic's table is exactly their union, in whatever interleaving it was read |
| Interleaving.RestartRebuilds | developer-doc.md:165-166 | a loader that reads the topic again, after any compaction of any partition and in any interleaving, rebuilds the same store, if partitions agree and each is safe to compact |
| Interleaving.RestartExact | developer-doc.md:165-166 | for any topic, with derived keys and keys shared between partitions: a new loader reading any legal compaction of every partition, in any interleaving, into a new store always rebuilds the same table if and only if for every key (a) each record that says otherwise about it is outlived, in its partition, by one that speaks about it and cannot be compacted away, and (b) if it has an entry, some record that speaks about it cannot be compacted away |
| Interleaving.SeededRestartExact | store.go:123-124 | rereading over a store that may already hold any entries, with keys partitioned, always gives the same table if and only if every partition is safe to compact |
| Interleaving.FaithfulPartitions | developer-doc.md:165-166 | faithful records (raw key decides, keys agree) make every partition safe |
| Kafka.PollTracks | internal/driver/event.go:39-49 | against partitions that grow at any moment: what has been delivered is, per partition, exactly the log up to the position; a position never moves back; and an end is reported only for a partition read as far as it reached at assignment |
| Ledger.EnterBalances | registration.go:126-183 | entering one more record keeps table, four counters, warm-up count and observer calls those of the records handled so far; after warm-up its count is frozen |
| Ledger.CountersExact | registration.go:43-46 | upserts is the number of handled records that decode and pass the filter, deletes of those whose key decodes and whose payload is a tombstone, filtered of those that decode and are rejected, decodeErrors of those whose key, or whose non-tombstone payload, does not decode |
| Ledger.EnterObserved | registration.go:126-183 | the observer hears of every handled record exactly once and in order, by the call that fits what became of it, a decode error with the key or the payload that failed; and of a key mismatch, with the record's key first and the derived one second, exactly when the binding asks for the check and they differ |
| Ledger.HeadingsPartition | registration.go:43-46 | every record is counted under exactly one of upserts, deletes, filtered and decode errors |
| Ledger.NothingApplied | registration.go:203-208 | the applied count is zero exactly when no record was an upsert or a tombstone, whatever else was read |
| Registration.Registration.Apply | registration.go:126-183 | the closure does to the store, counters and observer exactly what entering the record in the ledger does, in every one of its five outcomes, and leaves the store's counter as far from the map as it was; what that is, in the binding's own terms, are `Replay.OneMoreRecord`, `Ledger.CountersExact` and `Ledger.EnterObserved` |
| Registration.Registration.NoteRecord | registration.go:203-208 | a record counts as warm-up only while the phase is warm-up |
| Store.Store.Get | store.go:36-44 | a lookup finds the entry stored under the key, and reports absence exactly when there is none |
| Store.Store.Put | store.go:125-129 | replaces the entry under the key, touches no other, and moves the counter exactly as the number of entries moves |
| Store.Store.Delete | store.go:135-139 | removes the entry under the key and no other, a no-op when absent, and moves the counter with the number of entries |
| StoreRuns.LenIsAccounted | store.go:25-28 | under any interleaving of any writers, entries = counter + uncounted inserts − uncounted removals; so Len is exact when no writer is between its two steps and never further off than the number of writers |
| StoreRuns.LenCanBeNegative | store.go:25-28 | two bindings sharing a store can make Len report −1 |
| StoreRuns.ReadsAreLinear | store.go:36-44 | whoever writes, each Get returns what the table held at some point, and one reader's points never go back |
| StoreRuns.SingleWriterReads | store.go:12-19 | with one writer per store, a reader only ever sees tables of prefixes of the binding's log, successive reads never shrinking prefixes, and Len is off by at most one |
| StoreWalks.SnapshotIsHonest | store.go:103-116 | in any run of writers and readers, a snapshot holds every key that was there throughout the walk, and only values that the store held under their key at some moment of it |
| Detection.EofDetection.Begin | detect.go:79-86 | detection starts out awaiting exactly the assigned partitions |
| Detection.EofDetection.Observe | detect.go:94-103 | only an end-of-partition event removes a partition, its own, and warm-up is complete exactly when none is awaited |
| Warmup.HandleWarms | loader.go:299-330 | handling any event during warm-up either keeps the warm-up invariant (sound ledger, unreported partitions awaited, reported ones read far enough, progress punctual) or leaves warm-up soundly; which events end it, and how, is `LoopExits.WarmLoopExact` |
| Warmup.AbsorbPunctual | loader.go:318-325 | applying a record keeps progress reports at exactly the multiples of 100000 applied records reached so far |
| Warmup.EmptyMeansNothingApplied | loader.go:332-338 | once read to its end, a topic fails as empty exactly when the binding disallows it and no delivered record was an upsert or a tombstone |
| EmptyTopics.OneRecordTopic | loader.go:299-338 | a topic of one record, read to its end, is accepted by a binding that disallows empty ones exactly when the record is an upsert or a tombstone |
| EmptyTopics.FilteredTopicIsEmpty | errors.go:18-21 | a topic whose only record is filtered held a record and is reported empty |
| EmptyTopics.TombstoneTopicLoads | errors.go:18-21 | a topic whose only record is a tombstone is not |
| Warmup.WarmLoopLeaves | loader.go:277-353 | whatever the broker and the context do, warm-up ends with a sound ledger; with success only after every partition was read; with the empty-topic error only if nothing was applied; and with any error the phase is still warm-up |
| Warmup.WarmupIsComplete | loader.go:299-330 | when warm-up returns nil, the consumed records are for every assigned partition a prefix of its log at least as long as the log was at assignment, and the store is the fold of exactly those records in the order they were consumed |
| LoopExits.WarmLoopExact | loader.go:299-352 | warm-up runs until the first turn at which the context is done, the poll answers a fatal error or every awaited partition has reported its end, and no longer; it ends with the context's error (a deadline under a configured timeout becoming the warm-up timeout), the fatal error, the empty-topic error exactly when nothing was applied and the binding wants records, or success; every record answered until then is delivered and every error told to the observer; a success, and nothing else, makes the phase steady and is announced once with the applied count |
| LoopExits.AssignedExact | loader.go:299-338 | the same from assignment on, where the applied count is the number of delivered records that are upserts or tombstones in the binding's own terms |
| LoopExits.FailuresAreQuiet | loader.go:445-457 | non-fatal failures change nothing but what the observer hears: warm-up ends as if those turns had been quiet, with the same store, counters and verdict |
| Warmup.ServeSound | loader.go:410-420 | serving an event keeps store and counters those of everything delivered, and no longer counts records as warm-up |
| Loader.Loader.Add | loader.go:92-105 | registering panics exactly after Start or on a duplicate name; otherwise the binding is appended and found under its name, names staying unique |
| Loader.Loader.Claim | loader.go:135-159 | a call passes only on a loader that has bindings and was not started, and marks it started |
| Loader.Loader.NewConsumers | loader.go:236-257 | reports every construction failure in order; succeeds with one fresh open consumer per binding exactly when there was none; otherwise each consumer that had been built has been closed, once |
| Loader.FailuresInOrder | loader.go:239-248 | each construction failure is reported, after those before it |
| Loader.FailuresCounted | loader.go:239-248 | and there are as many reports as failures |
| Loader.Loader.CloseAll | loader.go:263-269 | every consumer ends closed, its native handle released at most once |
| Loader.Loader.WarmUpBinding | loader.go:277-353 | a failed assignment leaves store and counters untouched and is reported by its own error, a deadline being named the warm-up timeout exactly when one is configured; a successful one runs the specified warm-up loop; the borrowed consumer is never closed |
| Loader.Loader.ReadToEnd | loader.go:297-352 | the poll loop, with its detection object, progress threshold and consumer, computes exactly the specified warm-up loop |
| Loader.Loader.ServeBinding | loader.go:390-422 | the serving loop computes exactly the specified one and, exactly when it ends, leaves the phase stopped and the consumer closed once; when it ends is `LoopExits.ServeLoopExact` |
| Loader.Loader.BindingDied | loader.go:433-443 | only the first error is recorded and told to the handler; a later one changes nothing |
| Loader.Loader.Classify | loader.go:448-457 | every Kafka error reaches the observer, and the binding must stop exactly on a fatal one |
| Loader.ServeLoopLossless | loader.go:399-421 | over any script, and among other bindings dying, serving leaves the store the fold of everything delivered, including the record of the last poll; the warm-up count stays; and the handler has heard the recorded error and nothing else |
| LoopExits.ServeLoopExact | loader.go:399-421 | while no error is recorded, serving runs until the first turn at which the context is done, another binding has died or the poll answers a fatal error, and without any of those reads the whole script; it delivers every record and tells the observer of every error answered until then; and the loader's error and the handler's calls become those of that turn |
| LoopExits.RecordedEndsServing | loader.go:400-406 | a serving goroutine that finds an error recorded ends without another poll |
| Agreement.WarmTurnAgrees | loader.go:299-330 | three steps of a warm-up goroutine, under any interleaving of others, are one turn of the warm-up loop, of which only the first step's context and the second's broker matter |
| Agreement.ServeTurnAgrees | loader.go:399-421 | four steps of a serving goroutine are one turn of the serving loop: it stops at its first check exactly on a done context, at its second exactly on a recorded error, and otherwise polls once |
| Agreement.AssigningExact | loader.go:281-284 | a warm-up goroutine's first step ends it exactly on a done context, a refused assignment or a missing topic, each with its own error, and otherwise begins to read at the beginning |
| Agreement.StartHearsEveryone | loader.go:236-257 | over every run, Start keeps what the n constructions returned, in order, whatever happens in between; it fails at that stage exactly if one failed, with exactly those errors; and a consumer is built exactly when its construction did not fail |
| Serving.StoppedForAReason | loader.go:399-413 | in every reachable state with the context live and no error recorded, no serving goroutine has left its loop and no phase is stopped |
| Serving.ServingGoesOn | loader.go:399-421 | while the context is live and no error is recorded, over any run every four steps of a serving goroutine are one more poll, unless it has polled a fatal error that it is about to record |
| Ownership.OneOwner | loader.go:230-269 | in every reachable state a consumer is built and closed at most once, never in use after it was closed nor by two goroutines, and no binding serves while any warms up |
| Ownership.ConsumersConserved | loader.go:259-269 | once Start has returned and no serving goroutine is left, every consumer that was built has been closed exactly once |
| Ownership.StartIsAllOrNothing | loader.go:161-227 | Start returns nil if and only if every construction and every warm-up succeeded, and then every binding has its serving goroutine; otherwise none has, every built consumer is closed, and the errors are those of the failing stage, one per failing binding and none for the others |
| Ownership.OneClaim | loader.go:125-147 | of any concurrent Start calls on a loader with bindings exactly one passes and each other is told it was already started; without bindings each is told so and nothing starts |
| Ownership.WaitBeforeHandover | loader.go:474-494 | until the handover the WaitGroup counts nothing, so a wait does not wait |
| Shutdown.WaitEndsWhileLoading | loader.go:474-494 | a reached state in which the wait is over while a warm-up goroutine holds a record, which its next step writes to the store and counts as warm-up |
| Shutdown.WaitExact | loader.go:474-494 | once a wait has found no serving goroutine, no run of any length changes a store, a consumer, the error or Start itself, if and only if Start has returned or there are no bindings |
| Completeness.NothingLost | loader.go:312-329 | in every reachable state, across both generations, a store is the fold of exactly the records its consumer delivered, each once and in order, but for at most one in hand; the counters are theirs; and per partition they are the beginning of its log |
| Completeness.StartMeansComplete | developer-doc.md:156-158 | once Start has returned nil, every binding's store is, at once and from then on, the fold of records that include, for each of its partitions, everything the partition held at assignment, a record still in hand not being counted |
| Completeness.EveryRecordCounted | registration.go:126-208 | in every reachable state each of the four counters is the number of handled records of its kind, by the binding's own functions; the observer has heard of each handled record once, in order, and of each key disagreement; the warm-up count is the number of observer calls flagged warm-up, equals the applied records while warm-up lasts; and progress was reported at each multiple of 100000 of it, once, and nowhere else |
| Completeness.WarmupCountFrozen | loader.go:343-346 | once a binding has left warm-up it never returns to it and its warm-up count never changes |
| Completeness.PhasesTell | registration.go:57-74 | a stopped phase means the binding served; after a failed warm-up a binding is steady exactly when its own topic loaded, although nothing serves it |
| Fatal.WaitTellsWhy | loader.go:474-494 | once Start has returned and no serving goroutine is left, the error is nil exactly when no serving poll was fatal, otherwise one of those polled, and a configured handler has finished exactly one call, with it |
| Fatal.HandlerRunsOnce | loader.go:428-443 | in every reachable state the handler has run at most once, with the recorded error, and never in two goroutines at once |
| Fatal.ErrSticks | loader.go:433-436 | a recorded error is never replaced or cleared over any run, and a cancelled context stays cancelled |
| Shutdown.AtMostOneMorePoll | loader.go:399-421 | once the context is cancelled or an error recorded, every serving goroutine makes at most one further poll, is handed at most one further record and enters at most one further record in its store and counters, even if it had one in hand, over any run |
| Shutdown.ShutdownConverges | loader.go:390-422 | eight steps of each serving goroutine, in any order and among any other actions, stop the loader with every consumer closed once and nothing left to wait for |
| Shutdown.NothingAfterTheWait | developer-doc.md:171-172 | once Start has returned, with or without an error, and no serving goroutine is left, no action whatever changes a store, a consumer, the error or the handler's calls |
| Cancellation.CancelledStartReturns | loader.go:299-310 | once the warm-up context is done, Start and its goroutines take at most 6n + 4 further steps for n bindings, and until Start has returned one of them can take a step |
| Driver.Consumer.AssignAll | internal/driver/consumer.go:229-265 | succeeds exactly on an open consumer with a live context, a topic with partitions and an accepted assignment, then reads every partition from its beginning; otherwise nothing changes, and the error is the one of a closed consumer, a done context, a missing or partitionless topic, a failed metadata request or a refused assignment |
| Driver.Consumer.Poll | internal/driver/consumer.go:303-345 | a closed consumer answers fatally and touches nothing; an open one translates the native event, and its log and belief move as the rationing specification says; what it logs over a run is `Recovery.LineExact` and `Recovery.RecoveryExact` |
| Driver.Consumer.ClassifyError | internal/driver/consumer.go:349-381 | a native error becomes a failure of the same fatality, logged as lost, still unreachable, non-fatal or fatal under the ration |
| Driver.Consumer.NoteConnected | internal/driver/consumer.go:385-394 | an answer after a loss is logged once and clears the ration; otherwise nothing happens |
| Driver.Consumer.Positions | internal/driver/consumer.go:421-454 | a closed or unassigned consumer is refused; the map has a partition exactly when the answer holds a real, non-negative offset for it, and that offset comes from the answer |
| Driver.Consumer.Close | internal/driver/consumer.go:462-479 | the native handle is released by the first call and by no other |
| HandleProtocol.NoCallOnDeadHandle | internal/driver/consumer.go:59-103 | for any number of threads and any interleaving, no native call runs on a handle whose release has begun, at most one native call runs at a time, and the native close is entered at most once |
| HandleProtocol.LateCallReportsClosed | internal/driver/consumer.go:95-97 | a call that takes the lock once the flag is set reports that the consumer is closed, whatever happens before and after, unless it has not returned yet |
| HandleProtocol.CloseKeepsItsPromise | internal/driver/consumer.go:456-461 | in every run, a Close that was first to set the flag has returned only after the handle was released |
| HandleProtocol.CloseExact | internal/driver/consumer.go:456-467 | a Close called in any reachable state has returned, in every continuation, only after the release, if and only if the flag was clear or the release was already over |
| HandleProtocol.SecondCloseReturnsEarly | internal/driver/consumer.go:462-467 | a second Close returns while the first still waits for a poll in flight and the handle is not released |
| HandleProtocol.PollingWhileClosingIsReached | internal/driver/consumer.go:462-467 | the state it starts from is reached by a run |
| HandleProtocol.NeverStuck | internal/driver/consumer.go:95-104 | in no run do the lock and the flag block each other: while any thread is inside a call, some thread can carry on with its own |
| HandleProtocol.CheckAloneIsNotEnough | internal/driver/consumer.go:62-93 | without mutual exclusion a call that passed its check runs on a released handle |
| HandleProtocol.PastTheCheckIsReached | internal/driver/consumer.go:78-89 | the state it starts from is reached by a run without mutual exclusion |
| Throttle.Throttle.Allow | internal/driver/throttle.go:32-48 | answers and changes as the ration specification says; a denied call reports no count |
| Throttle.Throttle.Reset | internal/driver/throttle.go:54-60 | forgets the window and the suppressed count |
| Throttle.ThrottleKeepsItsWord | internal/driver/throttle.go:28-60 | over any calls, whatever the clock does: denied = counts reported + counts discarded by resets + current count; a call is allowed exactly when none was since construction or the last reset or the last such is at least `every` ago, and is told exactly of the calls denied since; and allowed calls with no reset between are that many intervals apart |
| Connection.LoggingIsBounded | internal/driver/consumer.go:347-394 | over any run of polls with a clock that never goes back, lost and restored lines alternate beginning with lost, and r recoveries in a time of `whole` full intervals go with at most whole + 2(r + 1) lost and rationed warnings |
| Recovery.RecoveryExact | internal/driver/consumer.go:311-394 | over any run of polls: at the end the driver believes the broker lost exactly when a non-fatal transport or all-brokers-down error has not been followed by a message or an end of partition; it has logged one lost line for each such error that was not already known, and one restored line for each answer that follows a loss |
| Recovery.LineExact | internal/driver/consumer.go:347-394 | line by line: a fatal error, a loss and a recovery are each logged at once; any other error, in the words that fit its code, exactly when the last such line with no recovery since is at least `every` old or there is none, with the exact number of lines withheld since; nothing else is logged |
| Connection.BoundIsMet | internal/driver/consumer.go:363-370 | the bound is tight: for every number of recoveries and of whole intervals some run of polls logs exactly that many, because losing the broker does not open the ration's window |

## Where the code and its documentation differ

The model follows the code. Each line names a witness and the exact condition.

* `ErrEmptyTopic` is documented as "held no records" (errors.go:18-21); the code
  tests the applied count (`EmptyTopics.FilteredTopicIsEmpty`,
  `EmptyTopics.TombstoneTopicLoads`, `Warmup.EmptyMeansNothingApplied`).
* The store's counter is said to stay exact even under concurrent writers
  (store.go:25-28); it is exact if and only if as many inserts as removals are
  between the map step and the counter step (`StoreRuns.LenCanBeNegative`,
  `StoreRuns.LenIsAccounted`).
* Restarts are said to rebuild the same stores (developer-doc.md:165-166).
  Compaction can break that through a filter, an undecodable payload or derived
  keys (`Compaction.FilteringLosesEntries`, `Compaction.BadPayloadLosesEntries`,
  `Compaction.DerivedKeysLoseEntries`); `Interleaving.RestartExact` says exactly
  when it does not.
* An entry stored under a disagreeing key is said never to be deletable
  (developer-doc.md:209, registration.go:161-163); a tombstone that carries the
  derived key deletes it (`Compaction.DerivedEntryRemoval`,
  `Replay.RemovalExact`).
* `Close` is said to wait for a poll in flight
  (internal/driver/consumer.go:456-461); a second call returns at once
  (`HandleProtocol.SecondCloseReturnsEarly`, `HandleProtocol.CloseExact`).
* A wait is said to return only when nothing is running (loader.go:474-489); that
  needs Start to have returned (`Shutdown.WaitEndsWhileLoading`,
  `Shutdown.WaitExact`).
* The warm-up count is said to be zero until warm-up completes
  (observer.go:133-134); while warm-up lasts it is the number of records applied
  (`Shutdown.WaitEndsWhileLoading`, `Completeness.EveryRecordCounted`).

## Left out

- Lifecycle: all bindings of one loader share the types K and V and have a store each; the original erases types per binding and does not stop two bindings from sharing a store (`StoreRuns` covers shared stores).
- Lifecycle.Advance: Start is not one method but a transition system, whose steps are the locked claim, each construction, launch, join, close and handover; the methods of `Loader` are its sequential parts.
- Loader.ServeLoop: other goroutines appear in the scripts of the `Loader` methods only as an error recorded before a turn; all finer interleavings are in `Lifecycle`.
- Compaction.Legal: compaction drops superseded records only, any choice of them; the broker's later removal of old tombstones, and compaction while a topic is being read, are not modelled.
- Kafka.Record: topic name, offset and timestamp are dropped, and per-partition order stands for offsets; positions count records, so gaps left by compaction in offsets do not appear.
- Kafka.NativePoll: librdkafka is an event source that honours the end-of-partition contract; retries, rebalancing and `buildConfigMap` are not part of this model, and the partition set is fixed at assignment.
- Replay.Binding: decoders, key derivation, filter and tombstone policy are total functions; a panic in one of them, and the default policy's trimming of blanks, are not modelled.
- Warmup.NameTimeout: the deadline is an action that may happen at any moment of warm-up; durations, `WarmupTook` and `LastRecordAt` are left out.
- Ledger.Notice: observer calls carry the flag, count, keys or raw bytes that matter here, not names or formatted text; log text is reduced to the kind of line.
- Ledger.Ledger: counters are unbounded, where the original wraps at 64 bits.
- Store.Store: values are held by value, so readers sharing a stored value with the store does not appear; `GetOrNil`, `Has`, `Stats` and `LookupRaw` are left out.
- StoreWalks.Over: a walk ends once it has visited the keys that were there when it began; stopping it early, as a caller of `All` may, is left out.
- HandleProtocol.NeverStuck: freedom from deadlock, not fairness of the lock.
- Shutdown.ShutdownConverges: counts each goroutine's own steps; that a poll or a native close returns is the driver's timeout, outside the model.
- Connection: polls are sequential, as the lock makes them; logging by calls other than Poll is left out.
- options.go, codec.go and the validation of bindings and driver configuration: field-by-field checks with no deeper property.
