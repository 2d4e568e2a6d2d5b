# A verified model of the `observe` library

The library publishes one outcome per *generation* of a key and lets any number of observers wait
for it: threads that park, wakers registered directly, futures. Completion slots are reference
counted, recycled through a pool, and must never leak anything from one generation to the next.
The project models that library in layers, and proves what holds in every reachable state, over
every run, and for every sequence of operations. `dafny verify dfyconfig.toml` checks all of it.

## The layers

| file | what it holds |
|---|---|
| `Options.dfy` | the option type |
| `Registry.dfy`, `WaiterList.dfy` | the waiter vector: its critical sections as functions, and as the loops the library runs, proved equal |
| `SlotMemory.dfy`, `CompletionSlot.dfy` | the state word, the outcome cell and the registry box: as values, and as an object updated in place |
| `SlotProtocol.dfy` | one slot as a machine of atomic steps: any number of `wait`, `wait_timeout`, `register_waker`, `poll` and future-drop actors against one completer |
| `SlotInvariant.dfy`, `SlotTheorems.dfy` | its inductive invariant, and what every run guarantees |
| `SlotPolls.dfy`, `SlotRegistrations.dfy`, `SlotDeadlines.dfy` | how a poll, a `register_waker` and a `wait` end, whatever runs between their steps |
| `SlotCancellation.dfy`, `SlotDrains.dfy`, `SlotTermination.dfy` | what dropped futures still cause, what the drain does to each waiter, and why everybody returns |
| `LazyRegistry.dfy` | the race to create the registry box |
| `Space.dfy`, `ObservationSpace.dfy`, `SmallMap.dfy`, `FxHasher.dfy` | the sections under the entries lock, the key table's storage, its hasher |
| `ObservationSteps.dfy` | the space as an object makes the steps of the lifecycle machine |
| `Lifecycle.dfy` | generations, handles, strong counts and the pool, around one slot protocol per slot |
| `SlotBorrowing.dfy`, `LifecycleInvariant.dfy`, `LifecycleRecycling.dfy`, `LifecycleHistory.dfy` | its invariant, and what time preserves |
| `LifecycleTheorems.dfy`, `LifecycleIncarnations.dfy` | the guarantees over runs, and the slot theorems lifted to every generation in recycled memory |
| `ModelSpec.dfy` | the reference model that the repository tests itself against |
| `SlotAlone.dfy`, `Sequential.dfy`, `SequentialRuns.dfy` | one thread using the library: every operation is the run of its own atomic steps |
| `SequentialAbstraction.dfy` | how the library's state corresponds to the reference model's |
| `SequentialSlots.dfy`, `SequentialHandles.dfy`, `SequentialGains.dfy`, `SequentialCompletion.dfy` | each operation keeps the correspondence: polls and registrations, handles let go, handles gained, completion |
| `SequentialRefinement.dfy`, `ModelHistory.dfy` | every answer is the reference model's answer, and so a fact about the operations before it |

An actor of the slot protocol has a program counter; a load, a read-modify-write, a lock
acquisition, the registry update inside the lock, the recheck, the unlock, a park, a wake of one
waiter are steps of their own, and steps of different actors interleave freely. Spurious returns of
`park`, tokens left over from elsewhere, and panicking wakers are steps like any other. The deadline
test of `wait_timeout` is a choice. History fields (`directs`, `fired`, `clock`, `published`,
`passed`, ...) only record; no step reads them to decide anything.

Assumptions: sequentially consistent atomics, lawful `Eq`/`Hash`/`Clone` of keys, `will_wake` as
equality of waker identities, one park token per thread, and lock sections on the entries as single
steps.

## Where the code and its comments differ

The model follows the code.

* `crates/observe/src/lib.rs:525-526` says that a pooled slot's strong count is exactly the pool's own
  reference. A retiring subject releases the write lock before its own `slot` field, so the count can
  be larger: `PooledCountCanExceedOne` is a run in which it is two, and `PooledSlotIsIdle` says exactly
  what it is, one plus the subjects that are still being dropped.
* `crates/observe/src/lib.rs:802-806` says that a completion racing the deadline is still observed. One
  published between the last recheck and the deadline test is not: `TimeoutMayMissThePublication` is
  such a run. `RacingPublication` says exactly when it happens: at the deadline test the last recheck
  found the slot pending, and the outcome is there if and only if it was published since.
  `CallsEndAsTheyMust` says which calls end with `None` and which with the outcome, `MissedExactly` which
  of the former missed one, and `TimeoutLinearises` what holds for all of them.
* `crates/observe/src/lib.rs:862-868` offers the outcome to the last reference. Two last holders that
  test the count before either lets go are both refused and the outcome is destroyed:
  `BothMayBeRefused`. `UnwrapDecides` says exactly when the test succeeds.
* A poll that registers its waker and then finds the outcome (`crates/observe/src/lib.rs:1007-1013`) does
  not record the waker, so it is not withdrawn when the future is dropped and may fire afterwards:
  `ADroppedFutureMayFire` is such a run. `OwnershipOfSettledFutures` says that this is the only wake a
  dropped future can still cause. A future dropped before publication causes none:
  `CancellationAddsNothing`.
* A thread is looked for in the last registry entry only (`crates/observe/src/lib.rs:784`), so it can be
  listed more than once: `AThreadMayBeListedTwice` is a run of one waiter that a spurious return sends
  round again behind another registration. `ListedOnceExactly` says when a push leaves at most one
  entry. Every deregistration removes all of the thread's entries.

## Model

| member | source | states |
|---|---|---|
| `Registry.DirectTally` | crates/observe/src/lib.rs:912-933 | a direct registration leaves one entry for its waker, persistent, with the owners it had, and no other waker's record changes |
| `Registry.FutureTally` | crates/observe/src/lib.rs:949-968 | a future's registration adds one owner to its waker's single entry and keeps persistence; no other waker's record changes |
| `Registry.ReleaseTally` | crates/observe/src/lib.rs:1032-1048 | cancelling takes one owner from each waker of the future; an entry goes exactly when it is neither persistent nor owned |
| `Registry.RegistrationsFind` | crates/observe/src/lib.rs:916-961 | a known waker's first entry is changed in place, each kind of registration its own field |
| `Registry.RegistrationsAppend` | crates/observe/src/lib.rs:928-967 | an unknown waker is appended: persistent and unowned, or owned once and not persistent |
| `Registry.PushThreadExact` | crates/observe/src/lib.rs:783-786 | after the push the thread is last; trying again adds nothing |
| `Registry.PushThreadCounts` | crates/observe/src/lib.rs:783-786 | a push adds exactly one entry of the thread, unless the last entry is the thread |
| `Registry.ListedOnceExactly` | crates/observe/src/lib.rs:783-786 | after a push the thread is listed at most once if and only if it was not listed, or listed once and last |
| `Registry.RemoveThreadExact` | crates/observe/src/lib.rs:791-792 | deregistration removes every entry of the thread and no occurrence of any other entry |
| `Registry.RemovalsKeepOrder` | crates/observe/src/lib.rs:791-792 | deregistering and cancelling go entry by entry, so that what stays keeps its order |
| `Registry.ReleaseEntry` | crates/observe/src/lib.rs:1032-1048 | what cancelling does to one entry: threads and foreign wakers stay, an own one loses an owner and goes with the last unless persistent |
| `WaiterLists.WaiterList.RegisterWaker` | crates/observe/src/lib.rs:912-934 | the loop over the vector is the critical section that the protocol takes as one step |
| `WaiterLists.WaiterList.RegisterFutureWaker` | crates/observe/src/lib.rs:949-969 | likewise for a future's registration |
| `WaiterLists.WaiterList.Push` | crates/observe/src/lib.rs:783-786 | likewise for the push of a waiting thread |
| `WaiterLists.WaiterList.Deregister` | crates/observe/src/lib.rs:791-792 | likewise for `retain` in `wait` and `wait_timeout` |
| `WaiterLists.WaiterList.Cancel` | crates/observe/src/lib.rs:1032-1048 | likewise for `retain_mut` in the future's drop |
| `WaiterLists.WaiterList.Take` | crates/observe/src/lib.rs:351-354 | the drain takes the whole vector and leaves it empty |
| `WaiterLists.Drain` | crates/observe/src/lib.rs:355-375 | whichever wakers panic, each listed thread is unparked and each listed waker woken, once, in registration order, and the panic that goes on is the first one, if any |
| `WaiterLists.DrainFiresTheWakers` | crates/observe/src/lib.rs:356-371 | the loop wakes exactly the wakers that the protocol's step-by-step drain fires, in the same order |
| `WaiterLists.DrainUnparksTheThreads` | crates/observe/src/lib.rs:357-358 | the loop unparks exactly the threads that the registry listed |
| `CompletionSlots.Slot.constructor` | crates/observe/src/lib.rs:219-225 | a new slot is pending, empty and without a registry |
| `CompletionSlots.Slot.Waiters` | crates/observe/src/lib.rs:306-335 | the registry is created on first use, once, and otherwise nothing changes |
| `CompletionSlots.Slot.Complete` | crates/observe/src/lib.rs:341-377 | the value, both bits, the drain exactly if HAS_WAITER was set, each taken thread unparked and each taken waker woken once, the first panic passed on |
| `CompletionSlots.Slot.RegisterWaker` | crates/observe/src/lib.rs:901-934 | answers whether the outcome is there, and registers exactly if it is not |
| `CompletionSlots.Slot.Reset` | crates/observe/src/lib.rs:381-405 | the slot memory after recycling, and the outcome it destroyed |
| `CompletionSlots.Slot.Finalize` | crates/observe/src/lib.rs:408-426 | the final drop destroys a valid outcome once and reclaims the registry |
| `CompletionSlots.Slot.MoveOutcome` | crates/observe/src/lib.rs:873-889 | the value leaves with the caller and OUTCOME_VALID goes with it, only if published |
| `SlotInvariant.StepKeepsInv` | crates/observe/src/lib.rs:341-377 | every atomic step of every actor keeps the protocol's invariant: lock, cell, registrations, owner counts, drain |
| `SlotTheorems.NoLostWakeup` | crates/observe/src/lib.rs:760-798 | once `complete` returned, every parked thread has its token, every accepted registration and every recorded future waker has fired, and a free registry is empty |
| `SlotPolls.PendingIsRecorded` | crates/observe/src/lib.rs:993-1021 | a poll that answers `Pending` has recorded its waker, and its last look, after registering, found the slot pending and the waker listed |
| `SlotPolls.PollsEndAsTheyMust` | crates/observe/src/lib.rs:1001-1021 | a poll ends `Ready` with the outcome that one of its two looks just found, or `Pending` after a last look in vain |
| `SlotPolls.PendingIsWoken` | crates/observe/src/lib.rs:936-942 | once `complete` returned, every waker with which a future, not dropped since, ever answered `Pending` has been woken |
| `SlotRegistrations.CallsAnswerAsTheyMust` | crates/observe/src/lib.rs:901-934 | `true` exactly if a look found the outcome, and then nothing was registered; `false` exactly if the recheck inside the lock found the slot pending, and then the waker fires |
| `SlotDrains.EveryEntryIsNotifiedOnce` | crates/observe/src/lib.rs:351-372 | each entry of the taken registry is notified at exactly one instant, a thread by its own token, a waker by its own wake |
| `SlotDrains.TheFirstPanicGoesOn` | crates/observe/src/lib.rs:355-375 | `complete` passes on a panic exactly if some wake panicked, and then that of the first waker whose wake did |
| `SlotDrains.TokensHaveReasons` | crates/observe/src/lib.rs:764-767 | a thread has its park token exactly if it was unparked, by a drain that lists it or from elsewhere, or had it and did not use it up |
| `SlotTheorems.ExactlyTheRightWakes` | crates/observe/src/lib.rs:346-372 | the wakers fired are exactly those owed a wake at one instant after publication, each once |
| `SlotTheorems.OwnershipOfSettledFutures` | crates/observe/src/lib.rs:974-979 | a dropped future owns exactly the waker it registered while already being answered, and nothing while the slot is pending; an idle one owns exactly what it recorded |
| `SlotCancellation.CancelledOwnsNothing` | crates/observe/src/lib.rs:974-979 | a future dropped before publication owns no entry, then and at every later instant |
| `SlotCancellation.CancellationAddsNothing` | crates/observe/src/lib.rs:1024-1049 | a future dropped before publication adds no wake and takes none from a sibling: exactly the wakers owed to others fire, each once |
| `SlotCancellation.ADroppedFutureMayFire` | crates/observe/src/lib.rs:1007-1013 | a run in which a poll is answered after registering, the future is dropped with nothing fired yet, and its waker then fires |
| `SlotTheorems.NothingFiresEarly` | crates/observe/src/lib.rs:341-350 | no wake before the outcome is readable |
| `SlotTheorems.OwnersAreCounted` | crates/observe/src/lib.rs:166-177 | until the take: one entry per waker, there exactly if somebody holds it, counting exactly the futures that own it |
| `SlotTheorems.ReleaseNeverUnderflows` | crates/observe/src/lib.rs:1045-1046 | the decrement in a future's drop always finds an owner, in any order of polls, migrations and cancellations |
| `SlotTheorems.AnswersAgree` | crates/observe/src/lib.rs:751-758 | every answer, at any later instant, is the one published outcome |
| `SlotTheorems.NoEarlyAnswers` | crates/observe/src/lib.rs:183-188 | nobody is answered before publication, and the cell is written while it is empty |
| `SlotTheorems.TimeoutLinearises` | crates/observe/src/lib.rs:813-851 | a `wait_timeout` that returned `None` has an instant inside the call at which the slot was pending, and leaves no entry behind |
| `SlotTheorems.TimeoutMayMissThePublication` | crates/observe/src/lib.rs:832-851 | a run in which the outcome is published before the deadline test and `None` is returned |
| `SlotDeadlines.RacingPublication` | crates/observe/src/lib.rs:832-851 | at every deadline test the last recheck of the same call found the slot pending, and the outcome is there exactly if it was published after that recheck |
| `SlotDeadlines.CallsEndAsTheyMust` | crates/observe/src/lib.rs:813-851 | a finished call returned `None` exactly if it found its deadline passed, and an outcome, the published one, exactly if a look found the slot completed |
| `SlotDeadlines.MissedExactly` | crates/observe/src/lib.rs:813-851 | a call that returned `None` missed an outcome exactly if it was published between its last recheck and its deadline test |
| `SlotDeadlines.WaitNeverGivesUp` | crates/observe/src/lib.rs:774-798 | a finished `wait` returned the published outcome; only `wait_timeout` can answer `None` |
| `SlotDeadlines.LooksAgainWhenWoken` | crates/observe/src/lib.rs:795-797 | after a recheck in vain `wait` looks again only with its park token, which it uses up, or after a spurious return |
| `SlotDeadlines.ReturnsDeregistered` | crates/observe/src/lib.rs:775-794 | a call returns an outcome from the first look of a round, or after taking its thread off the registry inside the lock |
| `SlotTheorems.AThreadMayBeListedTwice` | crates/observe/src/lib.rs:774-797 | a run in which a waiting thread, spuriously returned, registers again behind another waiter and is listed twice |
| `SlotTermination.StepLowersRank` | crates/observe/src/lib.rs:355-376 | after publication every own step of every actor lowers a rank, spurious wakes and duplicate entries included |
| `SlotTermination.SomebodyCanMove` | crates/observe/src/lib.rs:774-798 | after publication somebody can move until everybody has returned |
| `SlotTermination.EverybodyReturns` | crates/observe/src/lib.rs:774-858 | after publication a run of the actors' own steps is no longer than the rank; where it cannot go on, every `wait` has returned the published outcome and every `wait_timeout` the outcome or `None` |
| `SlotBorrowing.ResetIsFresh` | crates/observe/src/lib.rs:381-405 | `reset` at rest leaves a fresh slot but for a registry box, destroys the outcome if there is one, forgets stale registrations |
| `SlotBorrowing.DropIsClean` | crates/observe/src/lib.rs:408-426 | the final drop at rest destroys the outcome if there is one, reclaims the registry box and leaves nothing live |
| `LazyRegistry.StepKeepsInv` | crates/observe/src/lib.rs:306-335 | every load, allocation, exchange and reclamation keeps every box in one place; a published pointer never changes |
| `LazyRegistry.EverybodyGetsTheSame` | crates/observe/src/lib.rs:306-335 | all callers of all times get the same registry, and it is the only box ever published |
| `LazyRegistry.LateCallersMakeNothing` | crates/observe/src/lib.rs:307-312 | who asks once a registry is published gets it at the first look and allocates nothing |
| `LazyRegistry.BoxesAreConserved` | crates/observe/src/lib.rs:315-333 | each box is in flight, published or freed, and freed at most once; what callers hold is not freed before the slot's drop |
| `LazyRegistry.DropFreesEverything` | crates/observe/src/lib.rs:419-425 | the final drop frees the published box, and then every box was freed exactly once |
| `SmallMaps.InsertRefines` | crates/observe/src/lib.rs:472-491 | inserting a vacant key, inline, at promotion or hashed, is insertion into the finite map; the fifth inline entry promotes, and no other |
| `SmallMaps.SwapRemoveRefines` | crates/observe/src/lib.rs:497-501 | `swap_remove` reorders the pairs and removes exactly one key |
| `SmallMaps.SmallMapRefinesMap` | crates/observe/src/lib.rs:444-518 | for every sequence of lookups, insertions and removals, stale generations included, the answers are those of a finite map |
| `SmallMaps.SmallMap.Get` | crates/observe/src/lib.rs:456-461 | the search finds the map's entry |
| `SmallMaps.SmallMap.IsVacant` | crates/observe/src/lib.rs:464-469 | vacancy is absence from the map |
| `SmallMaps.SmallMap.InsertVacant` | crates/observe/src/lib.rs:472-491 | the stored form and the map after insertion |
| `SmallMaps.SmallMap.RemoveIf` | crates/observe/src/lib.rs:494-517 | removes the entry exactly if the generation is the entry's; a stale one changes nothing |
| `FxHashing.TimesSeed` | crates/observe/src/lib.rs:30-35 | multiplication by the seed modulo 2^64 can be undone |
| `FxHashing.MixIsReversible` | crates/observe/src/lib.rs:33-35 | from a mixed hash and either input the other input is computed back |
| `FxHashing.MixIsInjective` | crates/observe/src/lib.rs:33-35 | `add` is injective in the word for a fixed hash and in the hash for a fixed word |
| `FxHashing.OneWordDecides` | crates/observe/src/lib.rs:39-52 | inputs of as many words that differ in one word never share a hash |
| `FxHashing.IntegerKeysNeverCollide` | crates/observe/src/lib.rs:54-60 | two 64-bit keys never share a full hash |
| `FxHashing.WritesConcat` | crates/observe/src/lib.rs:39-52 | writing twice is writing the concatenation, when the first part ends on a word |
| `FxHashing.WordsLength` | crates/observe/src/lib.rs:40-51 | there are as many words as it takes to hold the bytes, a shorter remainder included |
| `FxHashing.WordsHoldTheBytes` | crates/observe/src/lib.rs:41-50 | byte k of word g, low bytes first, is byte 8g + k of the input, and zero behind its end |
| `FxHashing.OneGroupDecides` | crates/observe/src/lib.rs:39-52 | inputs of equal length whose bytes differ in one group of eight, the remainder included, never share a hash |
| `FxHashing.ShortKeysNeverCollide` | crates/observe/src/lib.rs:39-52 | keys of up to eight bytes and the same length never collide |
| `FxHashing.RotationMovesBits` | crates/observe/src/lib.rs:34 | the rotation is by five bits to the left |
| `FxHashing.FirstWord` | crates/observe/src/lib.rs:30-35 | a word mixed into the empty hash is multiplied by FX_SEED |
| `FxHashing.IntegersAreBytes` | crates/observe/src/lib.rs:54-56 | `write_u64` is `write` of the little-endian bytes |
| `FxHashing.FxHasher.Write` | crates/observe/src/lib.rs:39-52 | the chunk loop and the zero-padded remainder feed exactly the padded words |
| `ObservationSpaces.ObservationSpace.constructor` | crates/observe/src/lib.rs:561-571 | an empty table, an empty pool, generation one next |
| `ObservationSpaces.ObservationSpace.Register` | crates/observe/src/lib.rs:595-628 | `subject` in place is the section that the lifecycle machine takes; the memory of every slot stays but for the recycled one, which is reset, or the new one, which is fresh |
| `ObservationSpaces.ObservationSpace.Observe` | crates/observe/src/lib.rs:634-642 | `observe` in place: an answer exactly if the key is listed, then the slot of its entry, with one more reference; nothing else changes |
| `ObservationSteps.RegisterIsTheStep` | crates/observe/src/lib.rs:595-628 | in every reachable state the slots after `subject` in place are those of the lifecycle machine after its step |
| `ObservationSteps.RegisteredSlotIsPending` | crates/observe/src/lib.rs:607-611 | the slot handed out is pending with an empty cell and registry, in nobody's hands, and no other slot changes |
| `ObservationSteps.ObserveIsTheStep` | crates/observe/src/lib.rs:634-642 | observing a key is one more handle on the slot of its undropped subject, in that subject's incarnation, and possible exactly if there is one |
| `ObservationSteps.RetireIsTheStep` | crates/observe/src/lib.rs:716-728 | a subject's drop finds its own entry and removes it and no other |
| `ObservationSpaces.ObservationSpace.Retire` | crates/observe/src/lib.rs:716-728 | `Subject::drop` in place, up to the unlock: unlist, and pool exactly if unshared and there is room; a stale generation changes nothing |
| `LifecycleHistory.StepKeepsInv` | crates/observe/src/lib.rs:595-728 | every step of every handle keeps counts, table, pool, incarnations, borrows, cells and the ledger of outcomes |
| `LifecycleRecycling.SubjectIsListed` | crates/observe/src/lib.rs:716-718 | the entry under a subject's key is its own, so the generation test in its drop succeeds |
| `LifecycleRecycling.PoppedIsClean` | crates/observe/src/lib.rs:597-611 | `reset` runs on a slot on which nothing else runs, and leaves a fresh slot |
| `LifecycleTheorems.ReadsOwnGeneration` | crates/observe/src/lib.rs:751-758 | a handle reads what its own generation was completed with, or nothing, through any recycling |
| `LifecycleTheorems.ReadsAgreeForEver` | crates/observe/src/lib.rs:751-758 | once one handle of a generation reads a value, it and every sibling read it at every later instant |
| `LifecycleTheorems.AnswersAreOwnGeneration` | crates/observe/src/lib.rs:774-1021 | every answer of a wait or a poll through a current handle is what its own generation was completed with, and `register_waker` says so only once it was completed |
| `LifecycleTheorems.CloneReadsTheSame` | crates/observe/src/lib.rs:736-742 | any observation can be cloned; the clone reads what the original reads, of the same incarnation, and counts |
| `LifecycleTheorems.FutureAwaitsTheSame` | crates/observe/src/lib.rs:1052-1061 | awaiting an observation keeps its slot and incarnation; the future is idle and has no wakers |
| `LifecycleTheorems.PairIsItsOwn` | crates/observe/src/lib.rs:707-710 | a pair is one publisher and one observation of a new pending incarnation that nobody else refers to |
| `LifecycleTheorems.PooledSlotIsIdle` | crates/observe/src/lib.rs:716-728 | a pooled slot is pooled once, unlisted, referred to by no live handle, and nothing runs on it; its count is one plus the dying subjects |
| `LifecycleTheorems.PoolsExactlyTheUnobserved` | crates/observe/src/lib.rs:718-727 | a retired slot enters the pool exactly if no other handle refers to it and fewer than 128 are pooled |
| `LifecycleTheorems.RecyclesBeforeAllocating` | crates/observe/src/lib.rs:597-627 | a registration takes the slot pooled last, allocates only from an empty pool, and hands out a pending slot; a rejected one changes nothing |
| `LifecycleTheorems.PooledCountCanExceedOne` | crates/observe/src/lib.rs:524-527 | a run after which a pooled slot's count is two |
| `LifecycleTheorems.CountsAreExact` | crates/observe/src/lib.rs:698-729 | a strong count is exactly the map, pool and handle references, dying subjects included |
| `LifecycleTheorems.UniqueMeansAlone` | crates/observe/src/lib.rs:719-726 | a count of one means that nothing else refers to the slot, and conversely |
| `LifecycleTheorems.UnwrapDecides` | crates/observe/src/lib.rs:870-871 | the uniqueness test of `into_outcome` succeeds exactly for the last reference of any kind |
| `LifecycleTheorems.TakeYieldsThePublished` | crates/observe/src/lib.rs:870-889 | the sole owner gets the published outcome of its generation, nothing if unpublished, and no drain is in progress |
| `LifecycleTheorems.TakenAtMostOnce` | crates/observe/src/lib.rs:870-889 | after an outcome was moved out no handle of its generation is left |
| `LifecycleTheorems.BothMayBeRefused` | crates/observe/src/lib.rs:862-871 | a run in which the last two holders are both refused and the outcome is destroyed |
| `LifecycleTheorems.OutcomesAreConserved` | crates/observe/src/lib.rs:189-191 | every value ever passed to `complete` is in one live cell, or moved out, or destroyed, exactly one of them |
| `LifecycleTheorems.OutcomesLeaveByTakeAlone` | crates/observe/src/lib.rs:870-889 | an outcome leaves the library only through `into_outcome`, each success exactly the published one of its generation |
| `LifecycleTheorems.TeardownLeavesNothing` | crates/observe-tests/tests/model.rs:467-570 | after full teardown every value was moved out or destroyed once, and every slot is freed |
| `LifecycleTheorems.TableListsTheSubjects` | crates/observe/src/lib.rs:595-628 | entries and undropped subjects are in bijection: same key, generation and slot |
| `LifecycleTheorems.GenerationsGrow` | crates/observe/src/lib.rs:531-536 | a generation is never given out twice |
| `LifecycleTheorems.RetentionIsBounded` | crates/observe/src/lib.rs:434-435 | live slots never outnumber live handles plus 128 |
| `LifecycleIncarnations.EveryIncarnationRunsTheProtocol` | crates/observe/src/lib.rs:605-628 | whatever its memory held before, the states of a live slot since its incarnation began lie on a run of the slot protocol from a fresh slot to the present state |
| `LifecycleIncarnations.NoLostWakeupInAnyGeneration` | crates/observe/src/lib.rs:760-798 | no generation, in recycled memory or not, loses a wakeup: parked threads, timed or not, accepted registrations, recorded future wakers, and the empty registry |
| `LifecycleIncarnations.ExactlyTheRightWakesInAnyGeneration` | crates/observe/src/lib.rs:346-372 | the wakers fired in a generation are exactly those owed a wake at one instant of that same generation after its publication, each once |
| `LifecycleIncarnations.PendingIsWokenInAnyGeneration` | crates/observe/src/lib.rs:936-1021 | in every generation, recycled or not, a poll that answered `Pending` looked in vain in that generation, and its waker fires when that generation is completed |
| `SlotAlone.PollAlone` | crates/observe/src/lib.rs:993-1021 | a poll that runs alone answers with the outcome if there is one, else records its waker once; nothing else changes (for interleaved polls see `SlotPolls`) |
| `SlotAlone.PollTouchesOnlyTheRegistry` | crates/observe/src/lib.rs:1001-1021 | alone, a poll touches the slot only if it is pending and the waker new: one owner more, and HAS_WAITER |
| `SlotAlone.DropAlone` | crates/observe/src/lib.rs:1025-1049 | a future dropped alone is gone with its wakers; nothing else changes |
| `SlotAlone.DropTouchesOnlyItsWakers` | crates/observe/src/lib.rs:1024-1049 | alone, a drop releases the recorded wakers; a future without any touches nothing |
| `SlotAlone.WaitAlone` | crates/observe/src/lib.rs:774-798 | a waiter that runs alone returns the outcome at once and touches nothing, or lists its thread and comes to its park or deadline |
| `SlotAlone.TimedWaitLeavesNoTrace` | crates/observe/src/lib.rs:813-858 | a whole `wait_timeout` that gives up leaves the registry without its thread and otherwise as it was |
| `SlotAlone.BlockedWaitReturns` | crates/observe/src/lib.rs:774-798 | a blocked `wait` followed by a completion returns the completed value |
| `SlotAlone.CallAlone` | crates/observe/src/lib.rs:901-934 | `register_waker` alone answers by the completed bit and registers exactly if it is clear |
| `SlotAlone.CompleteAlone` | crates/observe/src/lib.rs:341-377 | a completion alone publishes its value and wakes exactly the owed wakers, each once |
| `SlotAlone.CompleteIsAtomicAlone` | crates/observe/src/lib.rs:341-377 | the completer's steps without interruption are `complete` on the slot as an object: its memory, the wakers fired in order, and exactly the listed threads unparked |
| `SlotAlone.CallIsAtomicAlone` | crates/observe/src/lib.rs:901-934 | the caller's steps without interruption are `register_waker` on the slot as an object |
| `SequentialRuns.OneThreadIsARun` | crates/observe-tests/tests/model.rs:181-199 | any sequence of operations by one thread is a run of the concurrent machine |
| `SequentialHandles.PinsAreCounts` | crates/observe-tests/tests/model.rs:201-231 | the test model's pin count is zero exactly if the library's strong count is one |
| `SequentialCompletion.OwedAreExpected` | crates/observe-tests/tests/model.rs:427-451 | the library owes a wake to exactly the wakers that the test model expects to fire |
| `SequentialRefinement.StepRefines` | crates/observe-tests/tests/model.rs:233-388 | each operation answers as the test model does and keeps the correspondence |
| `SequentialRefinement.ConformsToModel` | crates/observe-tests/tests/model.rs:454-465 | for every sequence of operations, every answer of the library is the test model's answer |
| `ModelHistory.OutcomeIsHistory` | crates/observe-tests/tests/model.rs:145-152 | what the test model shows of an epoch is what the epoch was first completed with, live or retired |
| `ModelHistory.ObservationsTellHistory` | crates/observe-tests/tests/model.rs:294-362 | after any operations `try_get` and `register_waker` tell what the handle's generation was completed with, and `into_outcome` gives it exactly to the last holder |
| `ModelHistory.PollsTellHistory` | crates/observe-tests/tests/model.rs:390-421 | after any operations a poll is ready exactly if its generation was completed, with that value |
| `ModelHistory.KeysTellHistory` | crates/observe-tests/tests/model.rs:235-293 | registration is refused and observation accepted exactly while the key's last registration was not retired |
| `ModelHistory.CompletionsTellHistory` | crates/observe-tests/tests/model.rs:427-451 | a completion wakes, once each, exactly the wakers registered on that generation, or polled with by a future of it that was not cancelled |

## Left out

- Weak memory: atomics are sequentially consistent; the Acquire, Release and Relaxed arguments of the comments are not examined.
- The internals of `parking_lot`, `triomphe::Arc`, `HashMap` and of park and unpark: a lock step, a counted reference, a finite map, a one-bit token.
- Clocks: the deadline test is a free choice, so nothing is said about how long `wait_timeout` waits, nor about `Instant` overflow.
- Destructors, clones and waker drops that panic or re-enter the library; only a panicking wake inside the drain is modelled.
- Generation exhaustion and overflow of an owner count: the assertions halt the program there, so runs end before the last generation.
- `ConformsToModel`: assumes fewer operations than there are generations, for the same reason.
- `LifecycleTheorems.RetentionIsBounded`: says nothing of registry boxes, which a pooled slot keeps.
- `ObservationSpaces.ObservationSpace.Register`: what happens to the popped slot when the generation assertion fails is not modelled; counts are a field of the space, not of each `Arc`.
- The object classes are used by one caller at a time; interleaving is the business of the protocol machines, which take the classes' sections as steps.
- Error types, `Debug`, `Display`, `Default` and `Clone` of the space, pinning and marker traits: nothing to say in a step model.
- The performance harness, counting allocator, benches, fuzz drivers and build configuration.
