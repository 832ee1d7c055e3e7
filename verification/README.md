# PlantKeeper: the write side's protocols, modelled and proved in Dafny

PlantKeeper keeps the state of a household's plants in several bounded contexts that talk through a
transactional outbox, a Kafka topic per context, consumer-group ledgers, sagas with recorded commands and
an event-sourced journal. This project models those protocols as state machines whose steps are the commit
points, with crashes, expired leases, redeliveries and interleavings as steps of their own, and proves what
holds over every run. The objects and loops of the code are modelled as classes and loops and are proved to
take only steps of those machines.

| file | what it models |
|---|---|
| `Outbox.dfy`, `OutboxRelay.dfy`, `OutboxBudget.dfy`, `OutboxPolls.dfy` | outbox rows, relays, broker and dead-letter topic; the relay's loops; what is outstanding and how polls use it up |
| `ConsumerGroup.dfy` | a consumer group's ledger and offsets over one partition, refined to an ideal queue |
| `UnitOfWork.dfy` | aggregates, tracker and unit of work; which events a sequence of attempts publishes |
| `Journal.dfy`, `JournalAggregates.dfy`, `JournalStore.dfy` | the journal as a value, its objects, and any number of concurrent writers |
| `SagaCommands.dfy`, `Onboarding.dfy`, `CommandDispatch.dfy` | one delegated saga step with dispatchers and compensation; both steps of the onboarding; the dispatcher's loops |
| `IdempotentCreate.dfy` | concurrent create requests that share idempotency keys |
| `Telemetry.dfy`, `TelemetryJobs.dfy`, `Rollup.dfy` | sensor, silence timer and `sensor_latest`; ingress and timer over all sensors; the hourly rollup |
| `CareSchedules.dfy`, `MissedCare.dfy`, `CareOverlaps.dfy` | the versioned schedule; the grace window and its catch-up; transactions that overlap on either row |
| `SpeciesSync.dfy` | the catalogue step and its compensation |
| `NotificationStream.dfy`, `HouseholdFanout.dfy` | the resumable stream; the shared subscription |
| `Partitions.dfy`, `CircuitBreaker.dfy`, `FailurePolicy.dfy` | the partition calendar; the breaker; the retry policy and what a claim on a delivery means |
| `Sequences.dfy`, `Numbers.dfy`, `Text.dfy`, `Wrappers.dfy` | shared facts about sequences, multiples, stripping and decimal numbers; options and results |

`dafny verify dfyconfig.toml` checks everything.

## Where the code does not do what its documentation says

The models follow the code; each difference has a lemma with a concrete run or input, and the exact
condition under which the promise holds is proved for all inputs.

* The command dispatcher's documentation says that a handler's effect and the intent's new status commit
  together. The handlers commit by themselves, so they are two commits, and neither the marks nor the
  cancellation look at who holds the lease: `SagaCommands.CompensationIsExact`,
  `SagaCommands.CancelRacesTheHandler`.
* `rollback` does not clear the tracker, so a unit of work that is used again commits events of rolled-back
  work: `UnitOfWork.CommitsExactly`.
* `compensate` restores before-images in forward order: `SpeciesSync.CompensationRestoresExactly`.
* The claim on a delivery is documented to commit with its effect. A saga's trigger commits it with
  `SagaStarted`, before any work, and is lost when it stops there: `FailurePolicy.LostExactlyWhenStranded`,
  `FailurePolicy.TriggerIsStranded`.
* A watering inside the grace period is documented to close the window. It is recorded as missed when the tick
  at the deadline comes before its `WateringCompleted` is consumed: `MissedCare.CareIsKeptExactly`,
  `MissedCare.UnconsumedCareIsMissed`. A late `WateringDue` reopens a closed window, and a late
  `WateringCompleted` closes the wrong one: `MissedCare.LateDueReopens`,
  `MissedCare.LateCompletionSatisfiesTheNext`, `MissedCare.SatisfiedCareIsMissed`.
* A lost update of a schedule is documented to be impossible, because commands lock the row. The timer lists and
  saves it without the lock: `CareOverlaps.NoCommandIsLostExactly`, `CareOverlaps.WateringIsLost`. It reads the
  window without a lock as well: `CareOverlaps.OverlapGivesOneVerdictExactly`.
* The stream promises no duplicate, but its cursor compares identifiers while reads are ordered by creation,
  and the consumer derives identifiers from events. Notifications are repeated and lost:
  `NotificationStream.DeliveredOnceMoreExactly`, `NotificationStream.LateCommitIsLostExactly`.
* The silence timer and the ingress save one sensor row without a version, so overlapping transactions can
  leave it at odds with the projected row: `Telemetry.OverlapAgreesExactly`.
* A stream that attaches while the previous ones are being detached is never woken:
  `HouseholdFanout.ServedThroughoutExactly`.
* `month_from_partition_name` promises `None` for names that are no month and raises for some:
  `Partitions.ParseRaisesExactly`.
* A cancelled half-open trial is never recorded, after which the breaker admits nothing:
  `CircuitBreaker.RecoversUnlessTrialVanished`.
* `mark_failed` answers `failed` but stores it never; the status stays `pending` until it is parked
  (`SagaCommands.EffectOnce` keeps that as part of its invariant).

## What stands for what

* A row identifier of the outbox also stands for its event identifier, which is unique. `Outbox` and
  `ConsumerGroup` hold one topic partition: every key hashed to it, its log and its readers.
* `JournalStore`, `MissedCare` and `Telemetry` follow one plant or one sensor; the rows of different ones are
  disjoint. Instants are integers (microseconds where a constant matters), identifiers are numbers.
* Fingerprints and derived identifiers are taken as injective; the order of identifiers is a premise that is
  stated where it is used.
* Clocks, scripts of broker answers, handler outcomes and what others commit meanwhile are parameters.

## Model

| member | source | states |
|---|---|---|
| Outbox.RunKeepsOrder | packages/infrastructure/src/plantkeeper/infrastructure/messaging/relay.py:95-152 | For any number of relays, crashes and lease expiries, a row that is on the topic comes after every older row of its key that nobody dead-lettered, and nothing older on the key of a taken row still needs publishing; the premise is that rows of a key become visible in identifier order. |
| Outbox.StepHoldsBarrier | packages/infrastructure/src/plantkeeper/infrastructure/persistence/repositories/outbox.py:92-112 | The claim query's barrier survives every single commit or broker call: a row that was ever held or published has nothing pending before it on its key. |
| Outbox.StepOrdersTopic | packages/infrastructure/src/plantkeeper/infrastructure/messaging/relay.py:118-152 | A publication, first or repeated, by a live or a stalled relay, keeps the per-key order of the topic. |
| Outbox.RunConserves | packages/infrastructure/src/plantkeeper/infrastructure/messaging/relay.py:118-198 | No row leaves the outbox; published rows are on the topic, dead-lettered rows have a copy, no mark is undone, and every other row is still pending, whatever crashes. |
| Outbox.RowsAreAsAppended | packages/infrastructure/src/plantkeeper/infrastructure/persistence/repositories/outbox.py:74-120 | In every run a row exists exactly when a unit of work committed it, with the key and the kind of the first message appended under its identifier. |
| Outbox.UnclaimedRowIsFresh | packages/infrastructure/src/plantkeeper/infrastructure/persistence/repositories/outbox.py:92-112 | Until a relay claims it, a row is pending, free and untried, whatever else the relays do. |
| Outbox.LeasesAreExclusive | packages/infrastructure/src/plantkeeper/infrastructure/persistence/repositories/outbox.py:104-120 | Unless a lease expires, no two relays hold one row at once, in any run. |
| Outbox.RowsAreGivenUpAtTheBudget | packages/infrastructure/src/plantkeeper/infrastructure/messaging/relay.py:167-198 | In every run no row is dead-lettered, or copied to the dead-letter topic, before its count of failed polls is one short of the budget. |
| Outbox.StalledRelayPublishesAbandonedRow | packages/infrastructure/src/plantkeeper/infrastructure/messaging/relay.py:141-198 | A run in which a stalled relay publishes a row after another relay dead-lettered it and published its successor: why order is claimed only for rows that are not dead-lettered. |
| Outbox.LateRowIsOvertaken | packages/infrastructure/src/plantkeeper/infrastructure/persistence/repositories/outbox.py:92-112 | A run in which a row committed late is overtaken: why the visibility premise is needed. |
| Outbox.PendingKeyHasAnUnblockedRow | packages/application/src/plantkeeper/application/ports/outbox.py:68-78 | The barrier never deadlocks a key: a pending row always leaves a pending, unblocked one no younger than itself. |
| Outbox.ClaimableRowsHaveDistinctKeys | packages/infrastructure/src/plantkeeper/infrastructure/persistence/repositories/outbox.py:92-112 | Rows that may be claimed together never share a key, so the order inside a batch cannot break the order of a key. |
| ConsumerGroup.EffectsFollowTheQueue | packages/application/src/plantkeeper/application/sagas/consumer.py:37-55 | Refinement: at every moment of every run, the effects of a consumer group on a key are a prefix of the ideal queue, each once, whatever the relays, members, redeliveries and rebalances do. The queue is the rows of the key in identifier order without those that were given up, moved aside, or, in a group that triggers a saga, claimed by a saga run without its effect. |
| ConsumerGroup.CaughtUpGroupDidEverything | packages/application/src/plantkeeper/application/sagas/consumer.py:37-55 | When the key is settled and the group has read the partition, its effects equal the ideal queue; only a group that triggers sagas can have rows claimed alone outside it. |
| ConsumerGroup.EveryHandledRowHasItsEffect | packages/application/src/plantkeeper/application/sagas/consumer.py:37-55 | In every run without a delivery moved aside and without a saga run, a group that caught up on a settled key has committed the effect of every row of the key whose kind it handles and that the relay did not give up, each after all such older ones. |
| ConsumerGroup.OnlyMovingAsideSetsAside | apps/workers/src/plantkeeper/workers/consumers.py:173-203 | Handling never puts a delivery aside: without a move-aside nothing is aside, in any run. |
| ConsumerGroup.GroupCanCatchUp | packages/application/src/plantkeeper/application/sagas/consumer.py:37-55 | From every state a member that joins and handles what is left brings the group to the end of the partition, undoing no effect and setting nothing aside. |
| ConsumerGroup.ReplayChangesNothing | packages/infrastructure/src/plantkeeper/infrastructure/persistence/repositories/sagas.py:59-80 | A group that has read everything and is rewound to any offset reads all of it again and commits no further effect or claim. |
| ConsumerGroup.MovedAsideIsNeverHandled | apps/workers/src/plantkeeper/workers/consumers.py:173-203 | A delivery moved aside is claimed and passed, and no redelivery ever handles it. |
| ConsumerGroup.PlayKeeps | packages/infrastructure/src/plantkeeper/infrastructure/persistence/repositories/sagas.py:59-80 | Over every run the ledger holds exactly the effects, the copies and the rows that saga runs claimed alone, three disjoint sets, no effect twice, and every handled delivery before a read position is claimed. |
| ConsumerGroup.PredecessorsClaimed | packages/application/src/plantkeeper/application/sagas/consumer.py:37-55 | The delivery a member is about to take has had the effect of every older live row of its key, live meaning handled, pending or to be handled: neither given up, moved aside nor claimed alone by a saga run. |
| ConsumerGroup.OnlyTriggersClaimAlone | packages/application/src/plantkeeper/application/sagas/base.py:168-174 | A group that dispatches no saga never claims a row without effect or copy, in any run: its ideal queue leaves out only what was given up or moved aside. |
| ConsumerGroup.ClaimedAloneIsNeverHandled | packages/application/src/plantkeeper/application/sagas/base.py:168-174 | A row whose claim a saga run committed without an effect is never handled by the group again, whatever is redelivered, while the group goes on with younger rows. |
| OutboxBudget.FreshTotal | packages/infrastructure/src/plantkeeper/infrastructure/messaging/relay.py:167-198 | An untouched outbox takes exactly rows times the attempt budget. |
| OutboxPolls.RefusedPollsSettle | packages/infrastructure/src/plantkeeper/infrastructure/messaging/relay.py:95-198 | Termination of the relay loop against a broker that refuses while the dead-letter topic accepts: over any sequence of whole polls by any relays, whichever claimable rows and however many each takes, the failed deliveries plus what is outstanding is constant, the outbox is settled exactly when they add up to the total, at most as many polls as that total settle it, and until then some row can be claimed. |
| OutboxPolls.FetchedIsTaken | packages/infrastructure/src/plantkeeper/infrastructure/persistence/repositories/outbox.py:74-120 | Every batch the relay fetches with a positive limit is one of those: of claimable rows, and empty only when there is none. |
| OutboxPolls.RefusedPollCounts | packages/infrastructure/src/plantkeeper/infrastructure/messaging/relay.py:95-116 | One refused poll gives every claim back and lowers the outstanding total by the size of its batch, and its batch is empty if and only if nothing is left to publish. |
| OutboxPolls.RefusedDeliveryFails | packages/infrastructure/src/plantkeeper/infrastructure/messaging/relay.py:118-198 | Whatever mixture of refusals and lost acknowledgements its tries meet, a failed delivery of a claimed row counts one attempt or dead-letters it at the budget, and touches no other row. |
| OutboxRelay.OutboxRelay.RunOnce | packages/infrastructure/src/plantkeeper/infrastructure/messaging/relay.py:95-116 | One poll fetches exactly the oldest claimable rows up to the limit and is a run of the outbox machine: the claims of that batch, then every delivery of it in turn; it counts the failures and gives every claim back. |
| OutboxRelay.OutboxRelay.FetchUnpublished | packages/infrastructure/src/plantkeeper/infrastructure/persistence/repositories/outbox.py:74-120 | Claims exactly the oldest claimable rows up to the limit, with the attempts read then, and leaves nothing else changed. |
| OutboxRelay.OutboxRelay.Deliver | packages/infrastructure/src/plantkeeper/infrastructure/messaging/relay.py:118-165 | At most the budgeted tries; the row ends published, counted, or dead-lettered with a copy, its lease is cleared and no other row changes, and the commits are steps of the machine. |
| OutboxRelay.OutboxRelay.PublishWithRetry | packages/infrastructure/src/plantkeeper/infrastructure/messaging/relay.py:154-165 | At most three tries, stopping at the first acknowledgement; they are steps of the machine and touch only the topic and what was acknowledged. |
| OutboxRelay.OutboxRelay.RecordFailed | packages/infrastructure/src/plantkeeper/infrastructure/messaging/relay.py:167-198 | A failure is counted, or copied aside and dead-lettered at the budget; a copy the broker refuses or does not confirm is counted instead. |
| OutboxRelay.ClaimsRun | packages/infrastructure/src/plantkeeper/infrastructure/persistence/repositories/outbox.py:104-120 | Claiming a batch row by row takes exactly the leases the one update statement takes. |
| OutboxRelay.SelectOldest | packages/infrastructure/src/plantkeeper/infrastructure/persistence/repositories/outbox.py:100-103 | The selection is increasing, within the limit, and leaves out only rows younger than all it took. |
| UnitOfWork.CommitsExactly | packages/infrastructure/src/plantkeeper/infrastructure/persistence/uow.py:211-235 | On one unit of work the outbox holds exactly the events of the committed attempts, each attempt touching and recording on any number of aggregates in any interleaving, in touch then record order, each once, if and only if no commit found events of an earlier attempt in the tracker. |
| UnitOfWork.EventsOfSavedAggregates | packages/infrastructure/src/plantkeeper/infrastructure/persistence/tracking.py:39-53 | A committed attempt publishes an event if and only if an aggregate recorded it that the attempt saved at some moment, before or after recording it. |
| UnitOfWork.MoveAsidePublishesRolledBackEvent | packages/infrastructure/src/plantkeeper/infrastructure/persistence/uow.py:232-235 | A delivery that failed and is moved aside on the same unit of work publishes an event of rolled-back work: rollback leaves the tracker alone. |
| UnitOfWork.FreshUnitOfWorkIsClean | packages/infrastructure/src/plantkeeper/infrastructure/persistence/uow.py:211-235 | A fresh unit of work per attempt conserves events, however the attempt ends. |
| UnitOfWork.UnitOfWork.Commit | packages/infrastructure/src/plantkeeper/infrastructure/persistence/uow.py:211-230 | Drains the tracker, then commits state and events together, or on a violated unique key publishes nothing; the events are drained either way. |
| UnitOfWork.UnitOfWork.Use | packages/infrastructure/src/plantkeeper/infrastructure/persistence/uow.py:192-235 | One attempt over any number of aggregates, from entering to leaving, moves outbox and tracker exactly as the value functions behind the conservation theorem say. |
| UnitOfWork.UnitOfWork.Exit | packages/infrastructure/src/plantkeeper/infrastructure/persistence/uow.py:201-209 | Leaving rolls back exactly when the body raised or did not commit. |
| UnitOfWork.AggregateTracker.CollectEvents | packages/infrastructure/src/plantkeeper/infrastructure/persistence/tracking.py:44-53 | Returns the events of the tracked aggregates in touch order and then record order, and leaves every one of them drained. |
| UnitOfWork.AggregateTracker.Track | packages/infrastructure/src/plantkeeper/infrastructure/persistence/tracking.py:39-42 | A repeated registration is ignored, the order of the first touch is kept. |
| UnitOfWork.Aggregate.CollectEvents | packages/domain/src/plantkeeper/domain/base.py:89-102 | Draining returns the recorded events in order and forgets them. |
| JournalStore.RunIsSound | packages/application/src/plantkeeper/application/journal/store.py:94-145 | For every interleaving of any number of writers on one plant, aborts included: the stream has versions 1 to n without a gap, no entry twice, one announcement per event in order, a correct checkpoint exactly at every fiftieth version, no load is refused, and committed versions never change. |
| JournalStore.EveryRunIsSound | packages/application/src/plantkeeper/application/journal/store.py:94-145 | Every run of the code is sound in that sense: it starts from an empty stream. |
| JournalStore.LoadSucceeds | packages/application/src/plantkeeper/application/journal/store.py:59-91 | A load succeeds and gives the whole stream even when other appends were committed between its two reads. |
| JournalStore.StepAppendsOnly | alembic/versions/0004_event_store.py:57-60 | One step leaves the stream alone or appends one entry whose identifier was not there: the unique key on stream and version is enough. |
| JournalStore.AppendedIffUncontended | packages/infrastructure/src/plantkeeper/infrastructure/persistence/repositories/event_store.py:40-61 | An entry is committed if and only if no other writer committed since this one loaded and its identifier is new. |
| JournalStore.OwnedEntryIsRecordedOnce | packages/application/src/plantkeeper/application/journal/store.py:119-122 | A caller-owned identifier that is already committed is never appended, announced or checkpointed again, even by a writer that loaded before. |
| JournalStore.AppendIsAllOrNothing | packages/application/src/plantkeeper/application/journal/store.py:123-145 | An append leaves no trace, or its writer had the whole stream and every row it commits continues it. |
| JournalStore.AppendStoresTheFact | packages/application/src/plantkeeper/application/journal/store.py:123-145 | A committed append stores and announces the given fact, every field of it, behind everything committed before, and changes no earlier row. |
| JournalStore.RepeatedFactIsAnswered | packages/application/src/plantkeeper/application/journal/store.py:119-122 | A caller that owns an identifier the stream holds is answered with the stored entry, any other is refused, and neither changes anything. |
| JournalStore.CheckpointsAreFiftyApart | packages/application/src/plantkeeper/application/journal/store.py:143-145 | In every run the checkpoints are those at the positive multiples of fifty up to the last version. |
| JournalStore.FewerThanFiftyAreReplayed | packages/application/src/plantkeeper/application/journal/store.py:59-91 | In every run a writer that has read the latest checkpoint has fewer than fifty events left to replay. |
| JournalStore.BehindIsTheTail | packages/infrastructure/src/plantkeeper/infrastructure/persistence/repositories/event_store.py:63-74 | Reading behind a version of a gapless stream returns exactly its tail, in version order. |
| Journal.TailReplayEqualsFullReplay | packages/domain/src/plantkeeper/domain/journal/aggregate.py:74-99 | Loading from a checkpoint taken anywhere and replaying the rest equals replaying from version one: the same ordered entries, version, checkpoint and answer to every identifier. |
| Journal.CheckpointRoundTrip | packages/domain/src/plantkeeper/domain/journal/state.py:33-58 | Restoring a saved checkpoint gives the journal back with its entries in canonical order, and saving that gives the same checkpoint. |
| Journal.SortIsCanonical | packages/domain/src/plantkeeper/domain/journal/stream.py:36-39 | With unique identifiers the order by moment and identifier is total, so sorting forgets the order of arrival. |
| Journal.ReplayAppends | packages/domain/src/plantkeeper/domain/journal/aggregate.py:83-99 | Replay succeeds exactly on streams of the plant with new and distinct identifiers, and then appends every entry and counts it. |
| Journal.RebuiltTwice | packages/domain/src/plantkeeper/domain/journal/entry.py:90-94 | Rebuilding an entry twice is rebuilding it once: a stored note never changes again. |
| Journal.RebuiltKeeps | packages/domain/src/plantkeeper/domain/journal/entry.py:90-94 | What is stored of an entry: every other field as given, and no note exactly when the given one is absent or all white space, otherwise the given note without the white space around it. |
| Journal.ChronologicalIsOldestFirst | packages/domain/src/plantkeeper/domain/journal/stream.py:36-39 | Readers see every entry once, oldest first, and of two at one instant the smaller identifier first. |
| Journal.SameJournal | packages/domain/src/plantkeeper/domain/journal/aggregate.py:130-136 | Journals with the same entries are the same to every reader, however the entries arrived. |
| JournalAggregates.LoadJournal | packages/application/src/plantkeeper/application/journal/store.py:59-91 | The loading loop loads exactly when the checkpoint can be restored and the stored events are journal events that continue it without a gap and replay; it then holds their replay and nothing to store. |
| JournalAggregates.JournalAggregate.RestoreFrom | packages/domain/src/plantkeeper/domain/journal/aggregate.py:74-81 | Registers the rebuilt entries of a checkpoint and takes its version over, or fails as the value does. |
| JournalAggregates.JournalAggregate.Apply | packages/domain/src/plantkeeper/domain/journal/aggregate.py:83-99 | Folds one event exactly as the value does, recording nothing: one entry more, the given fact with its note kept, and one version more; a rejected event changes nothing. |
| JournalAggregates.JournalAggregate.AddEntry | packages/domain/src/plantkeeper/domain/journal/aggregate.py:101-128 | Records exactly one event and appends exactly the entry that event replays to; both hold the given fact, every field as given and the note without the white space around it, or none when nothing else is left. |
| JournalAggregates.JournalStream.Register | packages/domain/src/plantkeeper/domain/journal/stream.py:56-65 | A foreign entry is refused before a repeated one; a refused entry changes nothing. |
| JournalAggregates.JournalStream.Find | packages/domain/src/plantkeeper/domain/journal/stream.py:45-54 | Finds an entry with the identifier exactly when the stream has one. |
| JournalAggregates.StateAtIsAPrefix | packages/domain/src/plantkeeper/domain/journal/aggregate.py:138-154 | A temporal query cuts the canonical journal at one place: later answers only extend earlier ones. |
| JournalAggregates.CountsByType | packages/domain/src/plantkeeper/domain/journal/state.py:74-79 | A kind has a count exactly when it occurs, and the count is how often. |
| SagaCommands.CompensationIsExact | packages/application/src/plantkeeper/application/sagas/onboard.py:221-255 | From every state of the protocol, withdrawing a delegated step leaves no effect in every drained continuation if and only if, when it is made, a pending command has not run and no dispatcher is about to create an effect that does not exist yet. |
| SagaCommands.CancelRacesTheHandler | packages/infrastructure/src/plantkeeper/infrastructure/persistence/repositories/sagas.py:218-244 | A real run in which the handler commits between claim and cancellation: everything ends drained and the effect stays without an undo. |
| SagaCommands.UndoneTooEarly | packages/infrastructure/src/plantkeeper/infrastructure/persistence/repositories/sagas.py:246-279 | A parked command that a stalled dispatcher still holds is undone first and executed afterwards. |
| SagaCommands.EffectOnce | packages/infrastructure/src/plantkeeper/infrastructure/scheduling/command_dispatch.py:80-128 | Run by any number of dispatchers, any number of times, with crashes between handler and mark, a recorded command commits its effect at most once, and exactly once when its intent ends executed. |
| SagaCommands.FailuresPark | packages/infrastructure/src/plantkeeper/infrastructure/persistence/repositories/sagas.py:246-279 | A command that keeps failing stays pending, one attempt the more each time, is parked at exactly the budget and is then never taken again; nothing else of the saga changes. |
| SagaCommands.PendingCommandCanBeCarriedOut | packages/infrastructure/src/plantkeeper/infrastructure/persistence/repositories/sagas.py:173-216 | Whoever holds a pending command, once that lease expires another dispatcher can carry it out: a create then has its effect once, an undo has removed it. |
| SagaCommands.LeasesAreExclusive | packages/infrastructure/src/plantkeeper/infrastructure/persistence/repositories/sagas.py:173-216 | Unless a lease expires, a command is never with two dispatchers at once, in any run. |
| SagaCommands.UncompensatedLeavesOne | packages/application/src/plantkeeper/application/sagas/onboard.py:103-119 | A step that is not compensated leaves exactly one effect once its command is drained. |
| SagaCommands.SafeWithdrawalUndoes | packages/application/src/plantkeeper/application/ports/saga_intents.py:164-172 | When the cancellation is answered truthfully, no drained continuation has the effect. |
| Onboarding.UncompensatedLeavesOneOfEach | packages/application/src/plantkeeper/application/sagas/onboard.py:103-168 | In every interleaving of the two delegated steps and their dispatchers, an onboarding that is not compensated leaves exactly one schedule and exactly one reminder once each is drained. |
| Onboarding.CompensationIsExactForEach | packages/application/src/plantkeeper/application/sagas/onboard.py:121-180 | Withdrawing a step, whenever the saga gets to it, leaves no effect of it in any drained continuation of both steps if and only if that withdrawal is safe. |
| Onboarding.StepsAreIndependent | packages/application/src/plantkeeper/application/sagas/onboard.py:59-67 | An interleaved run of both steps is a run of each. |
| Onboarding.FourKeys | packages/application/src/plantkeeper/application/sagas/onboard.py:275-281 | The two commands and the two undos of one onboarding have four different keys. |
| SagaCommands.KeysAreInjective | packages/application/src/plantkeeper/application/ports/saga_intents.py:183-208 | The printed key determines saga and step. |
| SagaCommands.CreateAndUndoKeysNeverCollide | packages/application/src/plantkeeper/application/sagas/onboard.py:275-281 | A step's command and any step's undo never share a key. |
| CommandDispatch.CommandDispatcher.RunOnce | packages/infrastructure/src/plantkeeper/infrastructure/scheduling/command_dispatch.py:80-102 | One tick is a run of the step's machine over the claimed batch and counts what ran. With room for every waiting command and no failure it leaves each of them executed and counts them all: a recorded undo leaves no effect, a first create without an undo leaves one. |
| CommandDispatch.CommandDispatcher.Execute | packages/infrastructure/src/plantkeeper/infrastructure/scheduling/command_dispatch.py:104-162 | Handler and mark are two commits, a failure is counted on its own, and the claim is given back whatever happened. |
| CommandDispatch.CommandDispatcher.ClaimPending | packages/infrastructure/src/plantkeeper/infrastructure/persistence/repositories/sagas.py:173-216 | Claims as many of the recorded, unleased, pending or failed commands as the limit allows, every one when there is room, the create before the undo, holds exactly those claims and changes nothing but leases. |
| CommandDispatch.DelegatingStep.Compensate | packages/application/src/plantkeeper/application/sagas/onboard.py:121-131 | Nothing delegated, nothing withdrawn; otherwise the command is cancelled or its undo is recorded, never both. |
| CommandDispatch.DelegatingStep.Act | packages/application/src/plantkeeper/application/sagas/onboard.py:103-119 | The command is recorded once, pending and untried, with the flag that says it was. |
| IdempotentCreate.RunIsConsistent | packages/application/src/plantkeeper/application/idempotency.py:60-108 | For every interleaving of any number of create requests, each key has at most one committed operation, which is the one its record stands for, and no record or answer is ever changed. |
| IdempotentCreate.FinishedRequestsAreDecided | packages/application/src/plantkeeper/application/idempotency.py:80-121 | Every finished request on a key got the winner's stored response if its content is the winner's, and a refusal otherwise. |
| IdempotentCreate.OneWinnerPerKey | packages/infrastructure/src/plantkeeper/infrastructure/persistence/repositories/idempotency.py:21-33 | Two committed operations never share a key. |
| IdempotentCreate.LoserFindsTheWinner | packages/application/src/plantkeeper/application/idempotency.py:97-107 | Losing the race for a key is never an error: the second read finds the winner's record. |
| IdempotentCreate.RepeatedRequestRunsNothing | packages/application/src/plantkeeper/application/idempotency.py:80-97 | A request whose key has a record is answered by its lookup, with the stored response for the same content and a refusal for other, and never commits anything, in any continuation. |
| IdempotentCreate.IdempotencyKeys.CommitCreate | packages/application/src/plantkeeper/application/idempotency.py:60-108 | Whatever other requests commit between its steps, a keyed request answers the replay of the record under its key, and raises only for a foreign unique constraint; one without a key answers its own committed operation, or raises exactly for such a constraint. |
| Telemetry.RunKeepsSidesInAgreement | apps/admin/src/plantkeeper/admin/projections/telemetry.py:98-125 | For every run of readings, repeated or out of time order, and timer ticks, transaction after transaction, the projected row carries the sensor's last-seen instant, its announcement and the values of the newest stored reading. |
| Telemetry.OverlapAgreesExactly | packages/infrastructure/src/plantkeeper/infrastructure/persistence/repositories/telemetry.py:58-61 | For an ingress and a timer transaction that overlap on one sensor, each commit order, and a row loaded for the save before or after the other commit: exactly which of them leave sensor and projected row in agreement. With a newer reading one of the two orders never does. |
| Telemetry.OverlapDisagrees | packages/infrastructure/src/plantkeeper/infrastructure/persistence/repositories/telemetry.py:58-61 | A sensor with one reading whose announcement and next reading overlap and leave the two sides in disagreement. |
| Telemetry.RecordKeepsAgreementExactly | packages/domain/src/plantkeeper/domain/telemetry/sensor.py:108-141 | Recording a reading keeps the two sides in agreement if and only if it is not a second reading of the very last-seen instant of an announced sensor. |
| Telemetry.RunAnnouncesEachSilenceOnce | packages/domain/src/plantkeeper/domain/telemetry/sensor.py:174-204 | Between two announcements of silence the sensor was heard at or after the instant last seen, and none comes before its ten minutes. |
| Telemetry.LatestAlertIsNewest | apps/admin/src/plantkeeper/admin/projections/telemetry.py:137-142 | In whatever order alerts arrive, the row keeps an alert of the log that no other is later than. |
| Telemetry.LatestAlertIsLast | apps/admin/src/plantkeeper/admin/projections/telemetry.py:137-142 | Of several alerts of the newest instant the row keeps the one that arrived last. |
| Telemetry.AlertsAreCrossed | packages/domain/src/plantkeeper/domain/telemetry/sensor.py:143-172 | A reading records the dry alert exactly below thirty, the wet one exactly above eighty and the anomaly exactly outside ten to thirty-five degrees, each at most once and at its own instant. |
| Telemetry.Sensor.Record | packages/domain/src/plantkeeper/domain/telemetry/sensor.py:108-172 | Only a foreign reading is refused; the silence state moves forward only; the reading is announced first and then exactly the alerts whose threshold it crosses. |
| Telemetry.Sensor.MarkOffline | packages/domain/src/plantkeeper/domain/telemetry/sensor.py:174-204 | The three refusals and the announcement are exact: never seen, still online, already announced. |
| TelemetryJobs.Registry.RunOnce | packages/infrastructure/src/plantkeeper/infrastructure/scheduling/sensor_silence.py:75-96 | One tick announces every silent sensor exactly once, longest silence first; no listed sensor is refused by its aggregate and no other changes. |
| TelemetryJobs.Registry.ListSilent | packages/infrastructure/src/plantkeeper/infrastructure/persistence/repositories/telemetry.py:78-96 | Lists exactly the silent sensors, ordered by last-seen instant and identifier. |
| TelemetryJobs.Registry.Ingest | packages/application/src/plantkeeper/application/telemetry/ingest.py:126-192 | An unregistered sensor's reading is dropped; a reading already stored for its instant changes and announces nothing; any other is stored, recorded and announced together. |
| Rollup.RollupIsTheAggregate | apps/admin/src/plantkeeper/admin/projections/telemetry.py:59-87 | The incremental upsert refines the plain aggregate: a window has a row exactly when it has a reading, with count, minima, maxima and means of all its readings. |
| Rollup.RollupsIgnoreOrder | apps/admin/src/plantkeeper/admin/projections/telemetry.py:59-87 | Projecting the same readings in any other order gives the same table. |
| Rollup.MeanIsBetweenExtremes | apps/admin/src/plantkeeper/admin/projections/telemetry.py:59-87 | Every stored mean lies between its minimum and its maximum. |
| Rollup.CountsSumToReadings | apps/admin/src/plantkeeper/admin/projections/telemetry.py:171-199 | The counts of all windows sum to the number of readings. |
| Rollup.ReadingsLieInTheirRow | apps/admin/src/plantkeeper/admin/projections/telemetry.py:171-199 | Every reading lies between the minimum and the maximum of the row of its own hour, its moisture in the moisture columns and its temperature in the temperature columns. |
| Rollup.WindowsPartitionTime | apps/admin/src/plantkeeper/admin/projections/telemetry.py:234-241 | Every instant lies in exactly one hourly window. |
| Rollup.Projection.Apply | apps/admin/src/plantkeeper/admin/projections/base.py:69-88 | However often events are delivered, the table is the rollup of every event once. |
| MissedCare.TicksReachFixpoint | packages/application/src/plantkeeper/application/sagas/missed_care.py:104-160 | Repeating the tick at one instant misses exactly the backlog, max(0, floor((now - 24h - next) / interval) + 1), moves schedule and version by as many, and changes nothing one tick after the last miss. |
| MissedCare.TicksCatchUp | packages/application/src/plantkeeper/application/sagas/missed_care.py:117-160 | The first n ticks of a catch-up miss the first n due moments, one each. |
| MissedCare.BacklogIsExact | packages/domain/src/plantkeeper/domain/care/schedule.py:169-176 | The closed form counts exactly the due moments at least a grace period behind now. |
| MissedCare.NeverMissedEarly | packages/application/src/plantkeeper/application/sagas/missed_care.py:139-160 | In every run, whatever is delivered late or twice, no miss is recorded before its window's due moment plus twenty-four hours. |
| MissedCare.OneVerdictPerDue | packages/application/src/plantkeeper/application/sagas/missed_care.py:67-102 | From a new schedule, in every run whose clock does not go back, that consumes events in time and never reschedules to a moment whose window was satisfied: no due moment is missed twice, none whose window the consumer closed as satisfied is missed, and no miss precedes the grace period, whatever waterings, skips and other reschedules happen meanwhile. |
| MissedCare.CareIsKeptExactly | packages/application/src/plantkeeper/application/sagas/missed_care.py:91-160 | Over every such run, no care done inside its grace period is recorded as missed if and only if no tick at or past the deadline of a pending window comes while the completion of its care is unconsumed; every such care is then satisfied or its window still pending. |
| MissedCare.UnconsumedCareIsMissed | packages/application/src/plantkeeper/application/sagas/missed_care.py:139-160 | A run that meets every premise above and records as missed a care done a microsecond after it was due: the tick comes before the completion is consumed. |
| MissedCare.RunKeepsSettled | packages/application/src/plantkeeper/application/sagas/missed_care.py:67-160 | The invariant behind it: every verdict is on a recorded due moment the schedule has left behind, and a pending window has none yet. |
| MissedCare.LateDueReopens | packages/application/src/plantkeeper/application/sagas/missed_care.py:67-89 | Consuming a recorded due event is harmless in every orderly continuation if and only if its moment was neither missed nor satisfied already; otherwise it reopens the closed window and a tick misses it. |
| MissedCare.LateCompletionSatisfiesTheNext | packages/application/src/plantkeeper/application/sagas/missed_care.py:91-102 | A completion that closes the pending window is harmless in every orderly continuation if and only if the schedule has moved past the window's moment or the plant was removed; otherwise it closes the next window, which the timer opens again and misses. |
| MissedCare.SatisfiedCareIsMissed | packages/application/src/plantkeeper/application/sagas/missed_care.py:67-102 | A run from a new schedule that records as missed a care completed inside its grace period: the due event is consumed after the window was satisfied. |
| MissedCare.MissAdvancesTheMovedSchedule | packages/application/src/plantkeeper/application/sagas/missed_care.py:139-160 | A miss moves the schedule by an interval from wherever it is by then: a skip or a watering while the window is open is followed by another move. |
| MissedCare.StepsAreCommands | packages/domain/src/plantkeeper/domain/care/schedule.py:110-176 | Waterings, reschedules, skips and misses move this schedule by its own versioned commands: to one interval past now, to the moment asked for unless that is past, and by one interval. |
| MissedCare.RemovedPlantIsNeverDue | packages/infrastructure/src/plantkeeper/infrastructure/persistence/repositories/care.py:84-113 | Once a plant is removed no due moment of it is recorded any more, in any run. |
| MissedCare.MissedCareSaga.EscalateOverdue | packages/application/src/plantkeeper/application/sagas/missed_care.py:104-160 | A tick opens the window of a due schedule of a plant that is there and has none pending, with the deadline a day later, then closes an expired pending window as missed, moves the schedule by one interval and one version, and changes nothing else; the schedule's own command is never refused there. |
| MissedCare.MissedCareSaga.OnWateringDue | packages/application/src/plantkeeper/application/sagas/missed_care.py:67-89 | Opens a window unless the plant is unknown or the same window is pending; a closed or different one is overwritten. |
| MissedCare.MissedCareSaga.OnWateringCompleted | packages/application/src/plantkeeper/application/sagas/missed_care.py:91-102 | Satisfies only a pending window, and only up to its deadline. |
| CareSchedules.NoLostUpdate | packages/domain/src/plantkeeper/domain/care/schedule.py:178-183 | Of commands that meet one schedule in turn, as the row lock makes them, the accepted ones expected consecutive versions, so no two of them had read the same one, and the version counts them. |
| CareOverlaps.NoCommandIsLostExactly | packages/infrastructure/src/plantkeeper/infrastructure/persistence/repositories/care.py:52-55 | The stored row is also saved by the timer, which lists it without a lock. Over every interleaving of commands and ticks, the row's version counts the accepted commands if and only if no tick saves a schedule that a command changed between the tick's listing and the load of its save. |
| CareOverlaps.TimerIsInvisible | packages/infrastructure/src/plantkeeper/infrastructure/persistence/repositories/care.py:84-113 | Without such a save, the row is what the commands alone make of it, one after the other. |
| CareOverlaps.WateringIsLost | packages/application/src/plantkeeper/application/commands/care.py:18-69 | A run in which a watering is accepted and answered, the tick writes the old schedule and version back, and a caller with the old version is accepted. |
| CareOverlaps.WateringSurvivesAnEarlyLoad | packages/infrastructure/src/plantkeeper/infrastructure/persistence/repositories/care.py:52-55 | A run in which the same watering survives, because the tick's session held the row before the command. |
| CareOverlaps.OverlapGivesOneVerdictExactly | packages/infrastructure/src/plantkeeper/infrastructure/persistence/repositories/sagas.py:128-144 | A tick and the consumer of a completion that both read the pending window before either commits: the due moment gets one verdict if and only if the completion is past the deadline or the tick before it; with two verdicts the window keeps that of the last to commit. |
| CareSchedules.SkipsKeepTheRhythm | packages/domain/src/plantkeeper/domain/care/schedule.py:155-176 | Skips and misses together move the due moment by exactly one interval for each accepted one, whatever the clock says. |
| CareSchedules.CareSchedule.Reschedule | packages/domain/src/plantkeeper/domain/care/schedule.py:124-153 | A stale version is refused before a moment in the past; either refusal changes nothing. Otherwise the next watering is the moment asked for, in the schedule and in the event, one version on. |
| CareSchedules.CareSchedule.CompleteWatering | packages/domain/src/plantkeeper/domain/care/schedule.py:110-122 | A current version moves the next watering to one interval past now, in the schedule and in the one event, and takes one version; a stale one changes nothing. |
| CareSchedules.CareSchedule.MarkMissed | packages/domain/src/plantkeeper/domain/care/schedule.py:169-183 | A miss moves the schedule by one interval from its own due moment, not from now. |
| CareSchedules.CareSchedule.Skip | packages/domain/src/plantkeeper/domain/care/schedule.py:155-167 | A skip moves the schedule by one interval from its own due moment and records the skip. |
| CareSchedules.CareSchedule.MarkDue | packages/domain/src/plantkeeper/domain/care/schedule.py:98-108 | A fact, not a change: it is refused before the moment and never takes a version. |
| CareSchedules.CareSchedule.Create | packages/domain/src/plantkeeper/domain/care/schedule.py:49-75 | A first watering in the past is refused; otherwise the schedule starts at version one with one event. |
| SpeciesSync.CompensationRestoresExactly | packages/application/src/plantkeeper/application/sagas/species_sync.py:102-180 | For every catalogue and every fetched list, applying and compensating restores membership and values if and only if, for each entry, the values before the last change the list makes are the ones it began with. |
| SpeciesSync.CompensationRestoresDistinct | packages/application/src/plantkeeper/application/sagas/species_sync.py:102-180 | With distinct identifiers the compensation is the inverse of the step. |
| SpeciesSync.ChangedEntriesEndTwoVersionsUp | packages/application/src/plantkeeper/application/sagas/species_sync.py:151-180 | A changed entry ends two versions up with its old values, every other one exactly as it was. |
| SpeciesSync.ApplicationIsAnnounced | packages/domain/src/plantkeeper/domain/catalog/species.py:127-176 | A reader who takes over every announced entry has the whole catalogue after any list. |
| SpeciesSync.RestorationIsAnnounced | packages/application/src/plantkeeper/application/sagas/species_sync.py:161-180 | So has a reader after before-images are restored; only deletions are not announced. |
| SpeciesSync.VersionsCountUpdates | packages/domain/src/plantkeeper/domain/catalog/species.py:127-176 | After any list an entry's version is the one it had, or one when the list created it, plus the number of its announced updates. |
| SpeciesSync.NormalizedKeeps | packages/domain/src/plantkeeper/domain/catalog/species.py:178-182 | Exactly the values with a name of nothing but white space are refused; otherwise the white space around the two names is dropped and nothing else. |
| SpeciesSync.DuplicateRecordIsNotUndone | packages/application/src/plantkeeper/application/sagas/species_sync.py:161-177 | Two different records of one entry: the compensation leaves the first record's values. |
| SpeciesSync.SecondApplicationIsSilent | packages/application/src/plantkeeper/application/sagas/species_sync.py:102-133 | Applying a list again changes nothing and records no event if and only if its records never contradict each other. |
| SpeciesSync.SilentIffMatches | packages/domain/src/plantkeeper/domain/catalog/species.py:127-176 | A list changes nothing exactly when it matches the catalogue; otherwise it announces something. |
| SpeciesSync.ApplySpeciesUpdatesStep.Act | packages/application/src/plantkeeper/application/sagas/species_sync.py:102-149 | All or nothing. Without a blank name the catalogue, both lists and the outbox are those of the records applied in order. A blank name raises and commits nothing, but the context keeps what was noted before it, and the tracked entries keep exactly the events of the records before it, which the next commit of the same unit of work publishes (`UnitOfWork.CommitsExactly`). |
| SpeciesSync.ApplySpeciesUpdatesStep.Compensate | packages/application/src/plantkeeper/application/sagas/species_sync.py:151-180 | Deletes what was created, restores the before-images in the order they were taken, and forgets both lists. |
| SpeciesSync.SpeciesEntry.Update | packages/domain/src/plantkeeper/domain/catalog/species.py:127-182 | The version is checked before the names; identical normalised values are no change, no version and no event. |
| NotificationStream.DeliveredOnceAndCompletely | packages/application/src/plantkeeper/application/notifications/stream.py:285-336 | Reads list by creation and resume by identifier. If notifications commit in the order of both, then over every run of commits, nudges, timeouts and reconnections, delivered identifiers strictly increase, and a waiting stream with no nudge outstanding has passed over nothing unread. |
| NotificationStream.ReconnectingIsInvisible | packages/application/src/plantkeeper/application/notifications/stream.py:285-336 | Two clients that saw the same notifications committed in order, nothing acknowledged, have received the same sequence once both are quiet, waiting with no flag and no nudge outstanding: the ordered identifiers past their cursor, however often either reconnected. |
| NotificationStream.SecondReadIsEmptyExactly | packages/infrastructure/src/plantkeeper/infrastructure/persistence/repositories/notifications.py:56-75 | A second read after a full one delivers nothing if and only if the newest pending notification has the greatest pending identifier. |
| NotificationStream.DerivedIdentifierIsRepeated | packages/application/src/plantkeeper/application/notifications/consumer.py:82-91 | With identifiers derived from events the cursor moves back and a notification is delivered twice. |
| NotificationStream.DeliveredOnceMoreExactly | packages/infrastructure/src/plantkeeper/infrastructure/persistence/repositories/notifications.py:56-75 | In any state of any run, whatever order notifications commit in: some continuation delivers an unread notification once more, delivered before or not, if and only if the cursor is before it or the read in progress lists it or a smaller one. |
| NotificationStream.LateCommitIsLostExactly | packages/infrastructure/src/plantkeeper/infrastructure/persistence/repositories/notifications.py:56-75 | In any state of any run, whatever order notifications commit in: no continuation ever delivers a newly committed one if and only if the cursor has passed its identifier and the read in progress, if any, lists no smaller one. |
| NotificationStream.DerivedIdentifierIsLost | packages/application/src/plantkeeper/application/notifications/consumer.py:82-91 | A run that commits two notifications out of identifier order, after which no continuation delivers the second. |
| NotificationStream.NudgedStreamReadsAgain | packages/application/src/plantkeeper/application/notifications/stream.py:126-152 | A nudge that finds the stream waiting, and a wait that times out, each lead to a read of everything committed by then. |
| NotificationStream.RunIsSound | packages/application/src/plantkeeper/application/notifications/stream.py:126-152 | Whatever was committed and not seen by the latest read still has a nudge to come, a raised flag or a read next: no nudge is lost. |
| NotificationStream.MonotoneListing | packages/infrastructure/src/plantkeeper/infrastructure/persistence/repositories/notifications.py:56-75 | With monotone identifiers the order by creation is the order by identifier. |
| NotificationStream.ReadIsExact | packages/infrastructure/src/plantkeeper/infrastructure/persistence/repositories/notifications.py:56-75 | A read delivers exactly the committed, unread notifications past the cursor, each once, by creation and then by identifier. |
| NotificationStream.AcknowledgedIsDeliveredExactly | packages/infrastructure/src/plantkeeper/infrastructure/persistence/repositories/notifications.py:56-75 | From every state, some continuation delivers an acknowledged notification once more if and only if the read in progress lists it. |
| NotificationStream.AcknowledgedBeforeTheReadIsNotDelivered | packages/infrastructure/src/plantkeeper/infrastructure/persistence/repositories/notifications.py:56-75 | What is acknowledged before a read begins is delivered neither by that read nor by any later one. |
| NotificationStream.CreatedAsCommitted | packages/infrastructure/src/plantkeeper/infrastructure/persistence/repositories/notifications.py:56-75 | Along every run notifications come from commits only, none is lost, each keeps the instant of its first commit, and only what was acknowledged is. |
| NotificationStream.OnlyANudgeWakes | packages/application/src/plantkeeper/application/notifications/stream.py:126-152 | A stream is woken only by a nudge since it connected. |
| NotificationStream.Cursor.Drain | packages/application/src/plantkeeper/application/notifications/stream.py:311-336 | A read yields what it found in order and leaves the cursor on the last arrival. |
| HouseholdFanout.NeverTwoSubscriptions | packages/application/src/plantkeeper/application/notifications/stream.py:173-226 | Over every interleaving of attaching, detaching, ending and failing, a household has at most one live subscription, and one that is kept has a stream to serve. |
| HouseholdFanout.AttachedStreamsAreThoseOpen | packages/application/src/plantkeeper/application/notifications/stream.py:173-195 | While the channel holds, the attached streams are exactly those that attached and did not detach since, whatever the task does. |
| HouseholdFanout.ServedThroughoutExactly | packages/application/src/plantkeeper/application/notifications/stream.py:173-226 | Over every run from a state without an unserved stream: every state of the run serves all its streams if and only if no stream attaches while the task of those before it is being cancelled. |
| HouseholdFanout.AttachIsServedExactly | packages/application/src/plantkeeper/application/notifications/stream.py:173-195 | The single step behind it: an attached stream is served unless it arrives while the task of the streams before it is being cancelled. |
| HouseholdFanout.AttachDuringDetachStarves | packages/application/src/plantkeeper/application/notifications/stream.py:187-195 | A real run that ends with an attached stream and no subscription. |
| HouseholdFanout.LateStreamStarves | packages/application/src/plantkeeper/application/notifications/stream.py:187-195 | Over every continuation, a stream that attached during the cancellation stays attached and unserved throughout if and only if nothing rescues it: another stream attaching once the task has ended, its own leaving, or the channel failing. When the task has ended no subscription is live. |
| HouseholdFanout.Household.TaskEnded | packages/application/src/plantkeeper/application/notifications/stream.py:187-195 | When the cancelled task ends, every waiting coroutine has cleared the handle and nothing else changed. |
| Partitions.AddMonths | packages/infrastructure/src/plantkeeper/infrastructure/persistence/partitions.py:63-88 | The stepping loop equals arithmetic on 12 times the year plus the month for positive and negative counts, and raises exactly outside the calendar. |
| Partitions.RangesTile | packages/infrastructure/src/plantkeeper/infrastructure/persistence/partitions.py:109-115 | A date lies in the partition of its own month and in no other. |
| Partitions.NamesRoundTrip | packages/infrastructure/src/plantkeeper/infrastructure/persistence/partitions.py:134-150 | Parsing a printed month gives the month, and a name parses to a month exactly when it is that month's name. |
| Partitions.ParseRaisesExactly | packages/infrastructure/src/plantkeeper/infrastructure/persistence/partitions.py:134-150 | Reading a name raises exactly for six digits that spell no month, where the documentation promises none. |
| Partitions.ThirteenthMonthRaises | packages/infrastructure/src/plantkeeper/infrastructure/persistence/partitions.py:134-150 | A table named for a thirteenth month raises. |
| Partitions.NameOfAMonth | packages/infrastructure/src/plantkeeper/infrastructure/persistence/partitions.py:91-93 | The partition of March 2026 is `sensor_readings_202603`, printed and parsed. |
| Partitions.PartitionedTable.Ensure | packages/infrastructure/src/plantkeeper/infrastructure/persistence/partitions.py:243-266 | Creates exactly the missing months of the window and the catch-all, or raises outside the calendar and leaves nothing. |
| Partitions.PartitionedTable.DropExpired | packages/infrastructure/src/plantkeeper/infrastructure/persistence/partitions.py:269-292 | Retires exactly the months entirely before the cut-off; the catch-all and every table that is no month stay. |
| Partitions.ExpiredPartitions | packages/infrastructure/src/plantkeeper/infrastructure/persistence/partitions.py:169-184 | Answers exactly the listed names of months before the cut-off, and raises exactly when a name cannot be read or has no successor month. |
| Partitions.PartitionedTable.Tick | packages/infrastructure/src/plantkeeper/infrastructure/scheduling/telemetry_partitions.py:84-93 | A tick leaves exactly the months it had or created that the retention window covers, and the catch-all; a tick that raises leaves nothing changed. |
| Partitions.TickKeepsWhatItCreates | packages/infrastructure/src/plantkeeper/infrastructure/persistence/partitions.py:153-184 | No tick drops a month it creates, whatever the retention. |
| Partitions.MonthsStayContiguous | packages/infrastructure/src/plantkeeper/infrastructure/persistence/partitions.py:243-292 | Over any run of ticks at most months-ahead plus one apart on a fresh table, the months present are one block from the cut-off, or the first month created, to the horizon. |
| Partitions.TickKeepsContiguousExactly | packages/infrastructure/src/plantkeeper/infrastructure/persistence/partitions.py:243-292 | One tick keeps a block contiguous if and only if it comes at most one month past the horizon, or so late that the whole block is retired. |
| CircuitBreaker.RunStaysExplained | packages/infrastructure/src/plantkeeper/infrastructure/external/circuit_breaker.py:100-164 | For every interleaving of overlapping, late and cancelled calls: closed exactly below the threshold of consecutive recorded failures; a trial is flagged exactly in half-open; between the outcome that opened it and the next recorded one at most one call is admitted, none before the timeout. |
| CircuitBreaker.RecoversUnlessTrialVanished | packages/infrastructure/src/plantkeeper/infrastructure/external/circuit_breaker.py:112-117 | Some continuation admits a call if and only if the breaker is not half-open with every call gone. |
| CircuitBreaker.CancelledTrialIsStuck | packages/infrastructure/src/plantkeeper/infrastructure/external/circuit_breaker.py:112-117 | One failure, one trial and its cancellation reach a breaker that never admits a call again. |
| CircuitBreaker.AsyncCircuitBreaker.BeforeCall | packages/infrastructure/src/plantkeeper/infrastructure/external/circuit_breaker.py:132-141 | Admits exactly in closed, or as the one trial of an expired or half-open breaker; a rejected call changes nothing. |
| CircuitBreaker.AsyncCircuitBreaker.RecordFailure | packages/infrastructure/src/plantkeeper/infrastructure/external/circuit_breaker.py:150-164 | A failed trial, or the failure that reaches the threshold, opens the breaker from now. |
| CircuitBreaker.AsyncCircuitBreaker.RecordSuccess | packages/infrastructure/src/plantkeeper/infrastructure/external/circuit_breaker.py:143-148 | A success closes the breaker and forgets its failures. |
| CircuitBreaker.AsyncCircuitBreaker.Configure | packages/infrastructure/src/plantkeeper/infrastructure/external/circuit_breaker.py:58-78 | A threshold below one or a timeout that is not positive is refused. |
| FailurePolicy.RunWithFailurePolicy | packages/application/src/plantkeeper/application/delivery.py:88-136 | At most the budgeted attempts, stopping at the first that is no plain failure; the move-aside is called once exactly when no attempt returned; the waits are exactly those before the retries. |
| FailurePolicy.TotalWaitIsBounded | packages/application/src/plantkeeper/application/delivery.py:58-60 | The whole backoff never exceeds the ceiling for each retry. |
| FailurePolicy.TotalWaitIsGeometric | packages/application/src/plantkeeper/application/delivery.py:58-60 | Below the ceiling the backoff is the geometric sum of the doubled waits. |
| FailurePolicy.WaitsDoubleUpToTheCeiling | packages/application/src/plantkeeper/application/delivery.py:58-60 | The first wait is the initial one, every further one twice the wait before, each but for the ceiling. |
| FailurePolicy.LostExactlyWhenStranded | packages/application/src/plantkeeper/application/sagas/base.py:157-222 | For every sequence of attempts, engine commits, crashes, recoveries and redeliveries, and either order of copy and claim: a delivery has at most one effect, its claim one reason, and no continuation gives it an effect or a copy if and only if it triggers a saga, its claim is durable, no run is under way and the saga has no row that recovery lists. Other groups lose nothing. |
| FailurePolicy.TriggerIsStranded | packages/application/src/plantkeeper/application/sagas/base.py:168-222 | Three ways from an unseen trigger to a delivery lost for good: a crash after the claim was committed with `SagaStarted`, a failure whose own commit fails, and a recorded failure of a saga without a row. No later move-aside makes a copy. |
| FailurePolicy.CopyIsRepeated | apps/admin/src/plantkeeper/admin/projections/subscriber.py:117-134 | A copy whose commit, or whose claim, is lost in a crash is made again: copies are at least once, claims once. |
| FailurePolicy.UnrecordedFailureReleasesTheClaim | packages/application/src/plantkeeper/application/sagas/base.py:157-222 | A dispatch that resumes a saga and fails before the engine commits, without its failure recorded, leaves everything as it was. |
| FailurePolicy.OneReasonStays | apps/workers/src/plantkeeper/workers/consumers.py:173-203 | Along every such sequence a claim is an effect or an acknowledged copy, or for a trigger a saga run, never two of them, and a trigger's effect is its completed saga. |
| FailurePolicy.DeliveryHandler.Handle | apps/workers/src/plantkeeper/workers/consumers.py:159-205 | Which attempts are made, what each leaves, and the ending: all but the last are plain failures, the last is none or uses up the budget, and only an unanswered last one is followed by setting the delivery aside. An answer of true leaves exactly one effect. The delivery ends claimed with one reason, or the failure to set it aside propagates and it stays unclaimed for the broker to offer again; nothing can come of it any more exactly when it is a stranded trigger. |
| FailurePolicy.AnsweredHasItsEffect | packages/application/src/plantkeeper/application/sagas/consumer.py:37-55 | An attempt that is answered true leaves exactly one effect under a durable claim, for every kind of group. |
| FailurePolicy.DeliveryHandler.SetAside | apps/admin/src/plantkeeper/admin/projections/subscriber.py:117-134 | Both orders of copy and claim: it succeeds only with an acknowledged copy, or on the write side with a claim that was there. |
| FailurePolicy.DeliveryHandler.Attempt | packages/application/src/plantkeeper/application/sagas/consumer.py:37-55 | A claimed delivery answers false without running the handler; otherwise claim and effect commit together and a failure leaves neither, except that a trigger's commits, its claim with the first of them, stay. |
| FailurePolicy.DeliveryHandler.Dispatch | packages/application/src/plantkeeper/application/sagas/base.py:157-188 | A dispatch commits the claim with `SagaStarted`, then whatever the engine commits, then the completion or the failure, as the machine's steps in that order. |
| Text.StripIsExact | packages/domain/src/plantkeeper/domain/journal/entry.py:90-94 | Stripping removes white space from both ends and nothing else. |
| Text.StripIdempotent | packages/domain/src/plantkeeper/domain/catalog/species.py:178-182 | Normalising a text twice is normalising it once. |

## Left out

- OutboxRelay.OutboxRelay.FetchUnpublished: returns its batch oldest first, as the port documents; the statement's `UPDATE ... RETURNING` gives no order, which cannot matter for a key because of `Outbox.ClaimableRowsHaveDistinctKeys`.
- Telemetry.OverlapAgreesExactly: two transactions, one reading and one tick; longer overlaps on one sensor row, and events appended in another order than their transactions commit, are not modelled.
- Rollup.RollupIsTheAggregate: exact reals; the rounding of stored floating-point means is not modelled.
- MissedCare.TicksReachFixpoint: one plant; the batch limit of a tick over many plants is not modelled.
- MissedCare.OneVerdictPerDue: every tick, command and consumed event is one transaction after the other; what overlapping ones do is in `CareOverlaps`.
- CareOverlaps.NoCommandIsLostExactly: one timer, and a tick that only opens a window; an escalation reads the schedule under the lock.
- Partitions.ParseRaisesExactly: ASCII digits; other characters that `str.isdigit` accepts are not modelled, and some of them raise in `int` as well.
- Partitions.PartitionedTable.Ensure: an absent parent table is not modelled.
- JournalStore.RunIsSound: the tabular mirror of the journal is not modelled; it is one more row of the same transaction.
- HouseholdFanout.NeverTwoSubscriptions: closing the whole process is not modelled; coroutines that wait for one task resume one after the other before anything else runs, as the event loop schedules them.
- NotificationStream.DeliveredOnceAndCompletely: what a notification says is not modelled, and the degraded single read is a read followed by a reconnection.
- Waiting itself: the relay's, dispatcher's and timers' pauses between ticks and their growing delays.
- FailurePolicy.LostExactlyWhenStranded: the recovery is one step that completes a listed saga; its budget, its staleness threshold and the parking of a process it gives up are not modelled, so a delivery that is not lost is one that can still get its effect, not one that will.
- ConsumerGroup.EffectsFollowTheQueue: a row claimed alone by a saga run stays outside the queue even if the recovery completes that saga later.
- OutboxPolls.RefusedPollsSettle: the broker refuses publications and accepts dead-letter copies; while it refuses those too, the code retries the row for as long as that lasts.
- The saga engine, which is library code that is not part of this model; only its commits, the steps, the withdrawal and the recorded commands are.
- Resolving handlers by name, rebuilding commands from payloads, and validation of values.
- Kafka, PostgreSQL, Valkey, the object-relational mapper and dependency injection, beyond what their commit points, unique keys and upserts do.
- Routers, mappings, generated documents, settings, the admin site and the simulator.
- Plain create, read, update and delete handlers, the household cap, the species cache, adaptive watering and the projections that copy one event into one row: each is settled by reading one branch.
