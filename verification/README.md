# Line64 queues in Dafny

A model of the five bounded queues of Line64 (`orbitqueue`), of the interval counter that
the benchmarks use for accounting, and of the drain protocols of the stress harness, with
proofs for every capacity, payload limit, number of threads, interleaving and run length.

The concurrent behaviour is modelled in `*Machine.dfy`: a state, one step per shared-memory
access (position load, cell load, weak compare-and-exchange, one payload byte, version or
counter store, lock, wait, notification), and `Run`, any sequence of such steps from a fresh
queue. No shared location or program counter takes a value from auxiliary state (histories,
linearization logs, stages of positions, `woken` marks); guards that keep auxiliary updates in
range are always met, as the `NeverStuck` lemmas show. `*Invariant.dfy` and `*Theorems.dfy` hold the inductive invariants and the results;
`*Witnesses.dfy` hold concrete runs that show where a guarantee stops. The same algorithms,
run in place by one thread at a time, are the classes in `*Queue.dfy`, `FixedMessage.dfy` and
`SequenceTracker.dfy`. Both layers are tied to the same sequential specifications: `Fifo.dfy`
(bounded FIFO with numbered items) and `Multicast.dfy` (unbounded history of which the last
`capacity` entries are retained).

Main results:

- **MPMC ring.** Successful pushes and pops are linearizable to a bounded FIFO at their
  compare-and-exchange; a call that claimed answers for its claim, and every refusal had its
  reason at one step of a call without effect; plain payload copies never meet on a cell; `full` and `empty` are
  given their exact meaning; retries are bounded by the other threads' claims plus spurious
  failures; capacity one really is unsafe.
- **Versioned SPMC queue.** Torn byte-by-byte copies are rejected; every answer other than
  `overwritten` is the mutex queue's answer at one instant of the call; `overwritten` is
  sound; every sequence is delivered once or skipped after being lapped; reads take a bounded
  number of steps; a consumer catches up once publishing stops.
- **Blocking queue.** No lost wakeup whatever first-time callers are queued on the mutex,
  mutual exclusion, conservation and close, with notifications issued after unlock and spurious
  wakeups; every answer is decided by one critical section of its own call, at a place in the
  accepted or taken items that no other answer has.
- **SPSC ring.** FIFO, slot exclusion, exact answers. `full()` and `empty()` are exact when the
  producer or the consumer calls them; for a third thread the exact condition is given (below).
- **Stress drains.** When a consumer leaves through its loop condition, nothing is left. The SPSC
  and multicast loops never record a failure and end within a stated number of steps after the
  done flag; MPMC consumers leave within eight steps once everything is popped and counted.

Assumptions: sequentially consistent interleaving of the atomic operations; counters that do
not wrap (the code declares exhaustion unsupported), so counters are natural numbers; payload
copies do not throw. Constructors that throw `std::invalid_argument` are `Create` methods
returning `None`, or a `requires` on the capacity where the machine starts from a constructed
queue. How often a weak compare-and-exchange fails spuriously is a parameter.

Where code and documentation differ, the model follows the code:

- `docs/queue_contracts.md:23` says that `try_pop` returns `empty` when no cell is published.
  The code also answers `empty` when later cells are published but the oldest claimed one is
  not (`MpmcWitnesses.EmptyBehindStalledPush`); `MpmcTheorems.EmptyMeans` is the exact rule.
- `include/orbitqueue/spsc_queue.h:70-79` compares two loads without fixing their order. Called
  by a third thread, the answer can be true although the condition holds at no instant of the
  call (`SpscWitnesses`). It was true at some instant if and only if the counter loaded first was
  not stored and, later, the other one stored, between the two loads
  (`SpscObservers.TrueAnswerExact`). This cannot happen to a `full()` that loads `head_` first or
  an `empty()` that loads `tail_` first (`SpscObservers.ObserverSound`). A caller that owns one
  of the counters gets exact answers in either order (`SpscObservers.OwnerAnswerExact`).

## Model

| member | source | states |
|---|---|---|
| `MpmcInvariant.InitInv` | include/orbitqueue/mpmc_queue.h:20-27 | a constructed queue of capacity two or more satisfies the invariant |
| `MpmcInvariant.PushProbeMeaning` | include/orbitqueue/mpmc_queue.h:41-54 | what a possibly outdated pusher learns from a cell sequence: smaller exactly if its position is current and one lap before is unreleased, equal only over a released cell, larger only if the position is outdated |
| `MpmcInvariant.PopProbeMeaning` | include/orbitqueue/mpmc_queue.h:68-81 | the same for a popper or `empty()`: smaller exactly if the position is current and unclaimed or unpublished |
| `MpmcInvariant.ClaimPushKeepsInv` | include/orbitqueue/mpmc_queue.h:43-49 | a successful enqueue CAS on a stale check still claims a free cell and keeps cell sequences, contents and log consistent |
| `MpmcInvariant.ClaimPopKeepsInv` | include/orbitqueue/mpmc_queue.h:70-76 | a successful dequeue CAS claims a published position and logs exactly its message |
| `MpmcInvariant.StoreKeepsInv` | include/orbitqueue/mpmc_queue.h:57-58 | each plain store of `assign` touches no other unreleased position |
| `MpmcInvariant.PublishKeepsInv` | include/orbitqueue/mpmc_queue.h:59-60 | publishing `position + 1` makes the cell hold the pushed payload and stamp |
| `MpmcInvariant.LoadKeepsInv` | include/orbitqueue/mpmc_queue.h:84-85 | byte-by-byte copying under a dequeue claim reads the claimed message |
| `MpmcInvariant.ReleaseKeepsInv` | include/orbitqueue/mpmc_queue.h:86-87 | storing `position + capacity` frees the cell for exactly the next lap |
| `MpmcInvariant.NextKeepsInv` | include/orbitqueue/mpmc_queue.h:32-97 | every step of every thread keeps the invariant |
| `MpmcInvariant.RunInv` | include/orbitqueue/mpmc_queue.h:32-97 | every state of every run satisfies the invariant |
| `MpmcTheorems.StepRefinesFifo` | include/orbitqueue/mpmc_queue.h:44-49 | only a successful CAS changes the abstract queue, by one event the bounded FIFO allows |
| `MpmcTheorems.RunRefinesFifo` | include/orbitqueue/mpmc_queue.h:32-88 | over every run pops are a prefix of pushes, numbered 1, 2, 3, ..., with `dequeue <= enqueue <= dequeue + capacity` |
| `MpmcTheorems.AnswersAreLinearizable` | include/orbitqueue/mpmc_queue.h:32-88 | every successful answer is explained by an event logged at the call's own CAS, between its start and its return |
| `MpmcAnswers.EffectsAreAnswered` | include/orbitqueue/mpmc_queue.h:32-88 | conversely, if a call logged an event, it is the only one and explains the answer returned: success with the whole message, or `message_too_large` for a short destination; a refusing call logged nothing |
| `MpmcAnswers.RefusalsAreJustified` | include/orbitqueue/mpmc_queue.h:32-97 | every refusal and every answer of `empty()`, in full, was given at one step of the call for the reason that held there, and the call had no effect |
| `MpmcTheorems.RealTimeOrder` | docs/queue_contracts.md:15-18 | a push (pop) that starts after another returned gets a larger sequence |
| `MpmcTheorems.PayloadExclusion` | include/orbitqueue/mpmc_queue.h:57-59 | two threads between claim and publish or release are on different cells |
| `MpmcTheorems.FullMeans` | include/orbitqueue/mpmc_queue.h:50-51 | `full` exactly if the position is current and one lap before is unreleased; without a pop in flight, exactly if `capacity` messages are held |
| `MpmcTheorems.EmptyMeans` | include/orbitqueue/mpmc_queue.h:77-97 | a pop answers (`empty`, 0, 0), and `empty()` answers true, exactly if the position is current and unpublished; without a push in flight, exactly if nothing is held |
| `MpmcTheorems.RetryAdvances` | include/orbitqueue/mpmc_queue.h:40-55 | a retry that is not a spurious CAS failure restarts at a strictly larger position |
| `MpmcTheorems.RetriesBounded` | include/orbitqueue/mpmc_queue.h:40-82 | retries are at most the other threads' claims on that counter since the call began, plus spurious failures |
| `MpmcTheorems.NeverStuck` | include/orbitqueue/mpmc_queue.h:32-97 | a thread inside a call can always take its next step |
| `MpmcTheorems.CasMayFail` | include/orbitqueue/mpmc_queue.h:44-45 | the weak compare-and-exchange may fail although it could succeed, and the call then retries at the same position |
| `MpmcWitnesses.CapacityOneOverwrites` | include/orbitqueue/mpmc_queue.h:113-120 | with capacity one, two pushes are accepted with no pop and the first message is overwritten |
| `MpmcWitnesses.EmptyBehindStalledPush` | docs/mpmc_queue.md:21-22 | a run where `empty` is answered after a later push has returned success |
| `Capacity.AcceptsExactlyPowersOfTwo` | include/orbitqueue/mpmc_queue.h:113-120 | the capacity check accepts exactly the powers of two from two up |
| `Capacity.MaskIsModulo` | include/orbitqueue/mpmc_queue.h:41 | for an accepted capacity `position & mask` is `position % capacity` |
| `Capacity.MaskedCellsDistinct` | include/orbitqueue/mpmc_queue.h:68 | `capacity` consecutive positions are masked to distinct cells |
| `MpmcQueue.Queue.Create` | include/orbitqueue/mpmc_queue.h:20-27 | a queue is made exactly for powers of two from two up, and is empty |
| `MpmcQueue.Queue.ClaimPush` | include/orbitqueue/mpmc_queue.h:38-55 | alone, the retry loop ends after the spurious failures and claims exactly if there is room |
| `MpmcQueue.Queue.TryPush` | include/orbitqueue/mpmc_queue.h:32-61 | appends the payload with the next sequence, or refuses oversize or full and changes nothing |
| `MpmcQueue.Queue.ClaimPop` | include/orbitqueue/mpmc_queue.h:65-82 | alone, the retry loop claims exactly if something is held |
| `MpmcQueue.Queue.TryPop` | include/orbitqueue/mpmc_queue.h:63-88 | removes the oldest message and copies it; a short destination consumes it too |
| `MpmcQueue.Queue.IsEmpty` | include/orbitqueue/mpmc_queue.h:92-97 | true exactly if nothing is held |
| `Fifo.LegalLog` | docs/queue_contracts.md:15-18 | a legal log dequeues a prefix of what it enqueues, numbered from one, within capacity |
| `Fifo.NoDoubleDelivery` | docs/queue_contracts.md:16-18 | two dequeue events of a legal log carry different, increasing sequences |
| `VersionedInvariant.InitInv` | include/orbitqueue/versioned_spmc_queue.h:92-94 | a constructed queue satisfies the invariant |
| `VersionedInvariant.MarkOddKeepsInv` | include/orbitqueue/versioned_spmc_queue.h:124-125 | the odd version store invalidates exactly the snapshots of readers it laps |
| `VersionedInvariant.StoreGuardedKeepsInv` | include/orbitqueue/versioned_spmc_queue.h:128-132 | guarded stores happen under an odd version, so no snapshot in progress survives them |
| `VersionedInvariant.SealKeepsInv` | include/orbitqueue/versioned_spmc_queue.h:134-137 | the even version store makes the cell hold exactly the offered payload of its generation |
| `VersionedInvariant.WantedCell` | include/orbitqueue/versioned_spmc_queue.h:202-203 | the wanted cell is odd only if lapped, and otherwise holds the wanted or a later message complete |
| `VersionedInvariant.RecheckMeaning` | include/orbitqueue/versioned_spmc_queue.h:210-227 | a copy whose version survived is the cell content of one generation |
| `VersionedInvariant.NextKeepsInv` | include/orbitqueue/versioned_spmc_queue.h:101-270 | every step of producer and readers keeps the invariant |
| `VersionedInvariant.RunInv` | include/orbitqueue/versioned_spmc_queue.h:101-270 | every state of every run satisfies the invariant |
| `VersionedTheorems.TornReadsAreRejected` | include/orbitqueue/versioned_spmc_queue.h:209-228 | equal even versions and the wanted sequence imply the exact payload published as that sequence, of a size that fits |
| `VersionedTheorems.VersionMeansGeneration` | include/orbitqueue/versioned_spmc_queue.h:161-166 | even version `2g` in cell `i` means sequence `(g - 1) * capacity + i + 1`; odd means the producer is writing there |
| `VersionedTheorems.AnswersAreAtomic` | include/orbitqueue/versioned_spmc_queue.h:189-255 | every answer other than `overwritten`, and its cursor, is the mutex queue's at the boundary load or the second version load |
| `VersionedAnswers.ReadsAreAnswered` | include/orbitqueue/versioned_spmc_queue.h:189-255 | over runs, every answer of a read called with some room is the mutex queue's for that room and the cursor found at the call, at one step of the call; or (`overwritten`, 0, cursor) for a lapped sequence, with the cursor raised to the oldest retained one |
| `VersionedAnswers.PublishesAreAnswered` | include/orbitqueue/versioned_spmc_queue.h:109-140 | over runs, a publication called with some payload appends exactly that payload to the history once, or is refused as too large |
| `VersionedTheorems.StableSnapshotEndsRead` | include/orbitqueue/versioned_spmc_queue.h:209-244 | a read retries exactly after an odd or changed version, at most 64 times, and an unchanged even version ends it, towards `overwritten` exactly if the wanted sequence is lapped |
| `VersionedTheorems.OverwrittenIsSound` | include/orbitqueue/versioned_spmc_queue.h:230-244 | `overwritten` only if a later generation has begun in the cell; the answer is (`overwritten`, 0, new cursor); the cursor jumps as for a lagging consumer if the boundary shows it, and stays otherwise |
| `VersionedTheorems.StepRefinesMulticast` | include/orbitqueue/versioned_spmc_queue.h:137-139 | on history and cursors each step is one multicast operation or nothing; publishing takes effect at the `published_` store |
| `VersionedTheorems.RunRefinesMulticast` | include/orbitqueue/spmc_multicast_queue.h:67-119 | the same along every run |
| `VersionedTheorems.ConsumerAccounting` | include/orbitqueue/versioned_spmc_queue.h:189-270 | over every run each passed sequence is delivered once, in order and with its payload, or skipped after being lapped; the deliveries are exactly the successful answers given |
| `VersionedTheorems.CursorsOnlyAdvance` | include/orbitqueue/versioned_spmc_queue.h:262-270 | no step moves a cursor back; a skip happens only past an already lapped sequence |
| `VersionedTheorems.ReadsAreBounded` | include/orbitqueue/versioned_spmc_queue.h:155-159 | each own step of a read lowers a measure that starts at `READ_ATTEMPTS * (m + 4) + 2`, with 64 attempts |
| `VersionedTheorems.ReaderNeverStuck` | include/orbitqueue/versioned_spmc_queue.h:189-255 | a reader inside a call can always take its next step |
| `VersionedTheorems.ProducerNeverStuck` | include/orbitqueue/versioned_spmc_queue.h:108-140 | the producer inside a call can always take its next step |
| `VersionedTheorems.CatchesUp` | include/orbitqueue/versioned_spmc_queue.h:189-260 | after the last publication a consumer whose destinations fit every published payload gets exactly the answers of uninterrupted mutex-queue reads |
| `VersionedTheorems.CaughtUp` | stress/queue_stress.cpp:628-661 | hence only successes and `empty` after at most one initial lag, never `overwritten`, and after more than `capacity` completed reads the cursor is past the boundary |
| `Multicast.CatchUp` | include/orbitqueue/spmc_multicast_queue.h:92-119 | those are at most one lag, then the retained suffix in order (at most `capacity`), then only `empty` |
| `Multicast.ShortReadsKeep` | include/orbitqueue/spmc_multicast_queue.h:114-118 | any number of reads with too little room answer `message_too_large` and leave the cursor, and a read with enough room then delivers the message |
| `Multicast.RetainedExactly` | include/orbitqueue/versioned_spmc_queue.h:257-260 | the oldest retained sequence is the first that less than `capacity` later ones have followed |
| `MulticastQueue.Queue.RegisterConsumer` | include/orbitqueue/spmc_multicast_queue.h:67-70 | a consumer starts at the next publication |
| `MulticastQueue.Queue.TryPublish` | include/orbitqueue/spmc_multicast_queue.h:72-82 | appends to the history and keeps the last `capacity` entries in their slots |
| `MulticastQueue.Queue.TryRead` | include/orbitqueue/spmc_multicast_queue.h:92-119 | answer, data and cursor are those of the history view; `overwritten` is unreachable |
| `VersionedQueue.Queue.WriteCell` | include/orbitqueue/versioned_spmc_queue.h:124-135 | the seqlock write raises the version by two and leaves the payload in the cell |
| `VersionedQueue.Queue.TryPublish` | include/orbitqueue/versioned_spmc_queue.h:109-140 | appends to the history, one call at a time |
| `VersionedQueue.Queue.Snapshot` | include/orbitqueue/versioned_spmc_queue.h:205-228 | with nothing running beside it, stable exactly on an even version, and then the cell content |
| `VersionedQueue.Queue.TryRead` | include/orbitqueue/versioned_spmc_queue.h:189-255 | one call at a time, answer, data and cursor are those of the history view |
| `Lockstep.RunMulticast` | include/orbitqueue/spmc_multicast_queue.h:67-119 | any operation sequence is answered as the unbounded history restricted to its last `capacity` entries says |
| `Lockstep.RunVersioned` | include/orbitqueue/versioned_spmc_queue.h:101-255 | the same for the versioned queue |
| `Lockstep.ReplyMeans` | include/orbitqueue/spmc_multicast_queue.h:67-119 | the reply to each operation in terms of the payloads accepted before it, and which cursor moves |
| `Lockstep.ShortReadsAreHarmless` | include/orbitqueue/versioned_spmc_queue.h:246-249 | in both queues a retained message survives any number of reads with too little room |
| `Lockstep.RunBoth` | README.md:46-49 | both queues give the same results and cursors, those of the bounded history view, one per operation, on every operation sequence, never `overwritten` |
| `BlockingTheorems.NextKeepsInv` | include/orbitqueue/blocking_queue.h:27-83 | every step, including spurious wakeups, keeps the invariant |
| `BlockingTheorems.NoLostWakeup` | include/orbitqueue/blocking_queue.h:27-83 | once no notification is pending and no woken thread has yet to re-check, a waiting consumer means open and empty, a waiting producer open and full; never both; callers that have not waited may be anywhere |
| `BlockingTheorems.Conservation` | include/orbitqueue/blocking_queue.h:27-74 | accepted is popped followed by queued, within capacity; `nullopt` only when closed and drained |
| `BlockingTheorems.NothingAcceptedAfterClose` | include/orbitqueue/blocking_queue.h:76-83 | once closed, closed forever and nothing more is accepted |
| `BlockingAnswers.AnswersAreLinearizable` | include/orbitqueue/blocking_queue.h:27-83 | every answer of every operation is decided by one critical section of that call as the sequential queue decides it there, with its own item appended to the accepted, or the returned item to the taken; its other sections only waited, and only when blocking and open and full or empty |
| `BlockingAnswers.AnswersHaveOwnPlaces` | include/orbitqueue/blocking_queue.h:27-74 | different calls are decided by different sections; their items have different places, ordered as the sections and as the calls in real time |
| `BlockingAnswers.AcceptedFromPush` | include/orbitqueue/blocking_queue.h:33-48 | every accepted item was put at its place by a section of a push of that item |
| `BlockingAnswers.TakenByPop` | include/orbitqueue/blocking_queue.h:55-72 | every taken item was the oldest queued one in a section of a pop |
| `BlockingTheorems.MutualExclusion` | include/orbitqueue/blocking_queue.h:28 | at most one thread is inside a critical section |
| `BlockingTheorems.SomeoneCanStep` | include/orbitqueue/blocking_queue.h:27-83 | unless every thread is idle or waiting, some step other than a spurious wakeup is possible |
| `BlockingTheorems.MayWakeSpuriously` | include/orbitqueue/blocking_queue.h:29 | a waiter may wake at any time without a notification, and then re-checks |
| `BlockingQueue.Queue.Push` | include/orbitqueue/blocking_queue.h:27-37 | accepts and owes `not_empty_` a notification, refuses when closed, or waits exactly when open and full; the same as the section of the step machine |
| `BlockingQueue.Queue.TryPush` | include/orbitqueue/blocking_queue.h:39-50 | closed before full before success with its notification, as the section of the step machine |
| `BlockingQueue.Queue.Pop` | include/orbitqueue/blocking_queue.h:52-63 | takes the oldest item and owes `not_full_` a notification, waits exactly when open and empty, `nullopt` only when closed and drained; as the section of the step machine |
| `BlockingQueue.Queue.TryPop` | include/orbitqueue/blocking_queue.h:65-74 | takes the oldest item with its notification, or tells closed from empty, as the section of the step machine |
| `BlockingQueue.Queue.Close` | include/orbitqueue/blocking_queue.h:76-83 | closes, keeps what is queued and owes both `notify_all`, as the section of the step machine |
| `BlockingQueue.OwedMeans` | include/orbitqueue/blocking_queue.h:35-82 | what an owed notification does: after a push exactly the waiting consumers, after a pop exactly the waiting producers are candidates, and the two `notify_all` of close leave no waiter |
| `SpscTheorems.NextKeepsInv` | include/orbitqueue/spsc_queue.h:39-79 | every split step keeps the invariant |
| `SpscTheorems.RunRefinesFifo` | include/orbitqueue/spsc_queue.h:39-66 | over every run popped is a prefix of pushed with sequences 1, 2, 3, ... and `tail <= head <= tail + capacity` |
| `SpscTheorems.SlotExclusion` | include/orbitqueue/spsc_queue.h:49-63 | the slot being written is never the slot being copied |
| `SpscTheorems.PopMeans` | include/orbitqueue/spsc_queue.h:55-66 | success hands over the oldest message, a short destination leaves it, `empty` is exact |
| `SpscTheorems.PushMeans` | include/orbitqueue/spsc_queue.h:39-53 | success publishes the payload with the next sequence, `full` is exact |
| `SpscAnswers.PushesAreAnswered` | include/orbitqueue/spsc_queue.h:39-53 | over runs, every answer of a push called with some payload: too large, full, or exactly that payload appended with the next sequence, decided at one step, the call's only effect |
| `SpscAnswers.PopsAreAnswered` | include/orbitqueue/spsc_queue.h:55-66 | over runs, every answer of a pop called with some room: empty, the oldest message does not fit and stays, or it is handed over whole and removed, decided at one step, the call's only effect |
| `SpscTheorems.ProducerNeverStuck` | include/orbitqueue/spsc_queue.h:39-53 | the producer inside a call can always take its next step |
| `SpscTheorems.ConsumerNeverStuck` | include/orbitqueue/spsc_queue.h:55-66 | the consumer inside a call can always take its next step |
| `SpscObservers.TrueAnswerExact` | include/orbitqueue/spsc_queue.h:70-79 | a true `full()` or `empty()` of a third thread was true at some instant of the call if and only if no store of the counter loaded first is followed by a store of the other one between the loads |
| `SpscObservers.TrueAtSecondLoad` | include/orbitqueue/spsc_queue.h:70-79 | a true answer holds at the second load if and only if the counter loaded first was not stored in between |
| `SpscObservers.ObserverSound` | include/orbitqueue/spsc_queue.h:70-79 | a true `full()` with `head_` loaded first, or a true `empty()` with `tail_` loaded first, always holds at its second load |
| `SpscObservers.OwnerAnswerExact` | include/orbitqueue/spsc_queue.h:70-79 | called by the producer or the consumer, the answer, true or false, is the truth at the load of the counter the caller does not own, in either load order |
| `SpscWitnesses.EmptyHeadFirstUnsound` | include/orbitqueue/spsc_queue.h:70-73 | a run where `empty()` answers true while a message is held at every instant of the call |
| `SpscWitnesses.FullTailFirstUnsound` | include/orbitqueue/spsc_queue.h:75-79 | a run where `full()` answers true while a slot is free at every instant of the call |
| `SpscQueue.Queue.Create` | include/orbitqueue/spsc_queue.h:29-34 | a queue is made exactly for nonzero capacities, and is empty |
| `SpscQueue.Queue.TryPush` | include/orbitqueue/spsc_queue.h:39-53 | appends the payload with the next sequence, or refuses oversize or full |
| `SpscQueue.Queue.TryPop` | include/orbitqueue/spsc_queue.h:55-66 | removes and copies the oldest message, or leaves it for a retry |
| `SpscQueue.Queue.IsEmpty` | include/orbitqueue/spsc_queue.h:70-73 | true exactly if nothing is held |
| `SpscQueue.Queue.IsFull` | include/orbitqueue/spsc_queue.h:75-79 | true exactly if `capacity` messages are held |
| `FixedMessage.Message.Assign` | include/orbitqueue/fixed_message.h:16-26 | the buffer holds exactly the payload and stamp, or refuses oversize and is unchanged |
| `FixedMessage.Message.CopyTo` | include/orbitqueue/fixed_message.h:28-35 | copies exactly the payload and nothing beyond, or refuses a short destination untouched |
| `MessageSlots.Slots.AssignAt` | include/orbitqueue/spsc_queue.h:50 | assigning one slot of the vector changes no other |
| `MessageSlots.Slots.CopyAt` | include/orbitqueue/spsc_queue.h:61 | copying out of a slot answers for the message it holds |
| `SpscDrain.DrainIsComplete` | stress/queue_stress.cpp:343-403 | when the consumer loop ends by its condition, every push was popped and the compared counts agree |
| `SpscDrain.NeverFails` | stress/queue_stress.cpp:343-399 | over every run no check of the harness fails: pushes are numbered in order, and every popped message is the next one generated |
| `SpscDrain.LoopTerminates` | stress/queue_stress.cpp:376-402 | after the done flag at most `(capacity + 1) * (room + 9)` steps follow, all by the consumer, and it has then left its loop |
| `SpscDrain.LoopNeverStuck` | stress/queue_stress.cpp:376-402 | until it has left its loop the consumer can always take a step |
| `MulticastDrain.NextKeepsInv` | stress/queue_stress.cpp:607-685 | every step of the producer loop and of any number of consumer loops keeps the invariant |
| `MulticastDrain.NeverFails` | stress/queue_stress.cpp:628-679 | over every run no check of the harness fails: publications are numbered in order, and every successful read has an increasing sequence and the payload generated for it |
| `MulticastDrain.DrainIsComplete` | stress/queue_stress.cpp:628-661 | when a consumer leaves through its loop condition, publishing is finished, its cursor is past the boundary, and every retained sequence since its registration has been seen |
| `MulticastDrain.LoopTerminates` | stress/queue_stress.cpp:628-661 | after the done flag a consumer takes a bounded number of own steps, at most `capacity + 1` turns and four steps, and has then left its loop |
| `MulticastDrain.LoopNeverStuck` | stress/queue_stress.cpp:628-661 | until it has left its loop a consumer can always take a step of its own |
| `MpmcDrain.AllPushesCounted` | stress/queue_stress.cpp:808-825 | with no producer left the push count equals the enqueue position |
| `MpmcDrain.DrainIsComplete` | stress/queue_stress.cpp:739-782 | when a consumer leaves through its `empty` branch, every successful push was popped, counted, and nothing is held or in flight |
| `MpmcDrain.DrainedConsumersLeave` | stress/queue_stress.cpp:739-782 | once everything is popped and counted and no producer remains, it stays so, and every consumer leaves within eight own steps |
| `MpmcDrain.LoopNeverStuck` | stress/queue_stress.cpp:739-825 | a producer or consumer that has not left its loop can always take a step of its own |
| `SequenceTracker.Tracker.Record` | benchmarks/benchmark_support.h:26-42 | accepts exactly nonzero sequences above all earlier ones, and keeps ranges sorted, disjoint and non-adjacent |
| `SequenceTracker.Sort` | benchmarks/benchmark_support.h:62-65 | an ordered permutation under the comparator |
| `SequenceTracker.WrapsModulo` | benchmarks/benchmark_support.h:67-79 | the wrapping sum and difference used by the merge are those modulo 2^64 |
| `SequenceTracker.MergeTurn` | benchmarks/benchmark_support.h:69-78 | each turn of the merge keeps the count equal to the values closed off, in wrapping arithmetic |
| `SequenceTracker.CountSorted` | benchmarks/benchmark_support.h:67-79 | the merge loop returns the size of the union, although its sums may wrap |
| `SequenceTracker.CountUniqueSequences` | benchmarks/benchmark_support.h:52-80 | the count is the number of distinct sequences recorded by all trackers |
| `SequenceTracker.UnionMember` | benchmarks/benchmark_support.h:52-57 | a sequence is counted exactly if some tracker recorded it |

## Left out

- Memory orders, fences and weak-memory behaviour: the machines interleave atomic operations sequentially consistently.
- Counter wrap-around and exhaustion in the queues: declared unsupported by the code, so counters are unbounded.
- Cache padding and alignment: no effect on behaviour.
- Exceptions thrown by user types of `BlockingQueue<T>`, destruction of a queue in use, moved-from consumer handles, `closed()` and the method aliases: each is settled by reading one branch.
- Benchmark drivers, adapters, argument parsing, payload generation, JSON output and timing: plumbing. The benchmark drain reads its done flag after the `empty` answer and makes no no-loss claim.
- Bitwise and is defined on the binary digits of natural numbers (`Capacity.BitAnd`), not on a fixed-width machine type.
- `std::sort` is modelled by an insertion sort with the library's contract, not by its algorithm.
- The multicast stress loop over the mutex queue: MulticastDrain runs it over the versioned queue; the mutex queue's calls are single steps, so it has fewer interleavings.
- VersionedQueue.Queue.TryRead: covers one call at a time, where both `overwritten` branches are unreachable; their behaviour under concurrency is in VersionedMachine and VersionedTheorems.
- MulticastQueue.Queue.TryRead: the unreachable `overwritten` branch is proved unreachable rather than written out.
- BlockingQueue.Queue.Push: one pass through the critical section and the notification it owes; waiting, waking and re-checking are in BlockingMachine, whose section each method is proved equal to.
- BlockingQueue.Queue.Pop: one pass through the critical section, as for Push.
