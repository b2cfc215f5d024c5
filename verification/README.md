# Verification of pyddd

A Dafny model of the parts of pyddd whose guarantees rest on several functions together, with proofs.
`dafny verify dfyconfig.toml` checks everything. Python exceptions are modelled as `None` results,
`ok == false`, or a null entity; nothing was executed.

## What is modelled

**Event-sourced aggregates over an optimistic store** (`EventSourcing`, `EventStore`, `EventStoreSystem`,
`EventStoreHistory`, `EventStoreCreation`, `EventStoreCaptures`, `EventStoreConflicts`).
An aggregate numbers, applies and queues its events. The store appends event by event, checks each version
and never rolls back. A run is any sequence of loads, creations, triggers, saves, discards and snapshot
captures by any number of clients on any number of streams; `append_to_stream` is one step, since nothing
in it awaits. How events change an aggregate (`Behaviour`) is an arbitrary deterministic parameter: its handlers
may raise after changing the state, and its snapshot encoding may lose something.
- Versions need no condition at all (`RunKeepsVersions`): although the append loop can tear a batch in general
  (`AppendCanTear`), in every reachable state a save is all or nothing and is accepted exactly if the client's
  base version is the stream's length (`SaveIsAtomic`, `SaveSucceedsIff`).
- States need a condition on the run, for the one aggregate in question: no save of a client whose handler has
  spoiled it is accepted, and what is captured round-trips (`HonestRun`). Then the stream is one serial history
  in which each event was produced on the replay of exactly the events before it (`OneSerialHistory`), and a
  load gives the state its payloads lead to from the one its creation built (`LoadGivesState`).
  `DirtyRunBreaksHistory` is a run where that fails. Every client stands on the replay of its events throughout
  a run if and only if no handler in it raised after changing the state and every captured state round-trips
  (`AllStandIff`, and `StandsOnReplayIff` for a single aggregate).
- The client of a refused save must be dropped: `KeptAfterConflict` says exactly when its next save would be
  accepted anyway, `KeptSaveIsSerialIff` when the history would still be serial, and `KeptClientLosesAnUpdate`
  shows an update lost that way.
- The repository compares its snapshot interval with the versions of message classes, not of events, so
  snapshots never get past the greatest class version, however long the stream (`Save`, `SnapshotsStayLow`).

**Consumer-group delivery** (`StreamGroup`, `ConsumerGroup`, `GroupDeliveries`,
`StreamConsumer`, `AskPolicy`, `EntryFate`).
The server is an environment: increasing entry ids, the last id handed out, a pending map. A run is any
interleaving of publishing, binds (restarts included), reads, reads whose reply is lost after the server
acted (a payload that cannot be decoded is one of these), and settlements that do or do not reach the
server, by any number of consumers with distinct names. A delivery of an earlier session can still be
settled in a later one. One model serves the asyncio and the synchronous handler, whose cursor code is the
same. Three findings go beyond the usual reading:
- entries whose ">" reply is lost are never delivered by the session that lost them, only by the next one
  (`LostReplyWaitsForRestart`, `RestartRecovers`), and lost replies are the only reason why a session that has
  caught up owns an entry it did not deliver (`UndeliveredIffReplyLost`, `ReplyCanBeLost`);
- after the first ">", every read from an id is empty, so reads alternate (`SteadyReadsAlternate`) and draining
  what waits takes up to twice as many reads as the limit suggests (`WaitingEntriesAreDrained`);
- a handler cancelled halfway counts as handled, because cancellation is not an `Exception`: that is exactly
  when a message is acknowledged although no handler returned (`CancelledCountsAsHandled`).

**JsonDict over an object graph** (`JsonGraph`, `JsonNormal`, `JsonStores`, `JsonForest`,
`JsonRuns`, `JsonObjects`). Memory is a map from object identities to containers, so sharing, cycles and update
in place are all visible. Parsing ends because every recursive call enters a container that is not marked yet.
The error says "circular reference", but the markers are never removed: parsing is refused exactly when some
container is reached by two paths (`ParseSucceedsIff`), so an acyclic list that holds another one twice is
refused too (`SharingIsRejected`). What is copied has, along every path, the image of what the original has there.
A program may own any containers at all, enum members over lists among them. An enum member's value is handed
out unparsed, so one that carries a list and is given to JsonDict puts that very list into the result
(`EnumValueAliases`), and the dict can even come to lie inside itself (`UncleanStoreClosesACycle`). A run also
has the program change built containers in place (`d["k"].append(x)`, deletions, merges). The built containers
stay a forest if and only if every container so handed over or put in place was built, is held nowhere else and
does not lead back to where it goes: for one store (`SetItemKeepsForestIff`), one construction
(`ConstructKeepsForestIff`), an update (`UpdateKeepsForestIff`) and a whole run (`RunKeepsForestIff`).

**Versions, registry and rows** (`MessageVersions`). The upcast loop, the topic registry and the row
converter. A row does not record its class's version, so an event of version 2 is upcast again when read
(`VersionTwoIsUpcastAgain`). `RowReadsBack` says what every row gives, `RowRoundTripsIff` which events come
back as they were.

**Dispatch and names** (`Dispatch`, `DomainName`), as far as the others rest on them. The lifespan's context is
built once per application, so one made from a generator can be entered only once. An application whose lifespan
raises during a stop is neither running nor stopped; it can be started again exactly if its lifespan can be
entered again (`RestartsIffReenterable`), and else has ended for good (`EndsForGood`). A start that raises at
its first signal makes the next stop enter the lifespan instead of leaving it (`StopEntersLifespan`). The
expression for domain sections lets one final newline through (`FinalNewlineIsAccepted`, `AcceptedAsMeantIff`).

## Model

| member | source | states |
|---|---|---|
| EventSourcing.ReplayAcceptsOnlyOwnHistory | src/pyddd/domain/event_sourcing.py:82-98 | replaying changes succeeds iff every event carries the entity's reference, versions follow without gap and the payloads apply; gives version, reference and state |
| EventSourcing.ReplaySplits | tests/unit/examples/test_example_8.py:169-183 | replaying two parts one after the other is replaying the whole |
| EventSourcing.CollectedBatchesAreTheHistory | src/pyddd/domain/event_sourcing.py:143-154 | for every run of triggers and collections in which raising handlers leave the state alone: batches then queue are the accepted payloads once each, in order, consecutively numbered, and replay to the live entity |
| EventSourcing.CreationStartsHistory | tests/unit/examples/test_example_8.py:48-70 | a history of a creation and changes replays, from anything before it, iff building the state does not raise and the changes carry the creation's reference, follow its version and apply; it gives the fold of the changes from the state that was built |
| EventSourcing.CreatedBatchesReplay | src/pyddd/domain/event_sourcing.py:136-154 | the same from creation: everything collected and queued is the creation at version 1 and one event per accepted payload; it replays from nothing to the live entity, whose state those payloads lead to from the one built |
| EventSourcing.StandsOnReplayIff | src/pyddd/domain/event_sourcing.py:143-146 | at every point of a run the live entity is the replay of its events iff no handler raised after changing the state |
| EventSourcing.RootEntity.Create | src/pyddd/domain/event_sourcing.py:136-141 | raises when building the state does; else a new aggregate in the state built, at version 1, with its creation event queued |
| EventSourcing.RootEntity.Apply | src/pyddd/domain/event_sourcing.py:82-98 | inherited mutate in place: reference and version checked, applied, version counted; a failure leaves everything but what a raising handler did to the state |
| EventSourcing.RootEntity.RegisterEvent | src/pyddd/domain/event_sourcing.py:148-149 | the event joins the queue at its end, nothing else changes |
| EventSourcing.RootEntity.TriggerEvent | src/pyddd/domain/event_sourcing.py:143-146 | the whole new aggregate after a trigger, whether it raises or not |
| EventSourcing.RootEntity.CollectEvents | src/pyddd/domain/event_sourcing.py:151-154 | hands over the queue and empties it; entity and version stay |
| EventStore.AppendWritesFreePrefix | src/pyddd/infrastructure/persistence/event_store/in_memory.py:23-30 | for any stream and batch: exactly the longest prefix meeting no existing version is written, and ok iff that is all |
| EventStore.FailedAppendIsAtomicIff | src/pyddd/infrastructure/persistence/event_store/in_memory.py:23-30 | a refused append left the stream unchanged iff the first event clashed |
| EventStore.AppendCanTear | src/pyddd/infrastructure/persistence/event_store/in_memory.py:25-30 | a concrete batch that is refused halfway and partly kept |
| EventStore.AppendNumbered | src/pyddd/infrastructure/persistence/event_store/in_memory.py:25-30 | on a stream 1..n a numbered batch is refused untouched, appended whole, or appended past a gap, as its base is below, at or above n |
| EventStore.BetweenSelects | src/pyddd/infrastructure/persistence/event_store/in_memory.py:32-34 | on any stream the read gives exactly the events in range, once each, in insertion order |
| EventStore.BetweenIsSlice | src/pyddd/infrastructure/persistence/event_store/in_memory.py:32-34 | on a numbered stream the read is a slice |
| EventStore.RestoreEqualsReplay | tests/unit/examples/test_example_8.py:169-183 | loading through any committed last snapshot equals full replay; with an upper bound it gives committed state at the bound or at the snapshot |
| EventStore.CapturesSelect | tests/unit/examples/test_example_8.py:157-167 | the captures after an append are exactly one for each event whose class version is a multiple of the interval, in order, each rehydrated up to that version, until the first that raises; an interval of zero raises at once |
| EventStore.TakenIsCommittedIff | src/pyddd/domain/event_sourcing.py:156-170 | a snapshot of a committed state restores that state iff the state's encoding round-trips |
| EventStore.TailReplays | src/pyddd/domain/event_sourcing.py:156-170 | from the state at version k, the events after k alone reach the full replay's state |
| EventStore.InMemoryStore.AppendToStream | src/pyddd/infrastructure/persistence/event_store/in_memory.py:23-30 | the loop in place: the written prefix stays when it raises; other streams untouched |
| EventStore.InMemoryStore.GetStream | src/pyddd/infrastructure/persistence/event_store/in_memory.py:32-34 | the events in range; the stream exists afterwards |
| EventStore.InMemoryStore.AddSnapshot | src/pyddd/infrastructure/persistence/event_store/in_memory.py:36-38 | the snapshot joins the list at its end |
| EventStore.InMemoryStore.GetLastSnapshot | src/pyddd/infrastructure/persistence/event_store/in_memory.py:40-44 | the last snapshot stored, if any |
| EventStore.InMemoryStore.GetOrCreateEventStream | src/pyddd/infrastructure/persistence/event_store/in_memory.py:46-52 | an unknown stream is created empty, a known one returned |
| EventStore.InMemoryStore.GetOrCreateSnapshotStream | src/pyddd/infrastructure/persistence/event_store/in_memory.py:54-60 | the same for snapshot lists |
| EventStore.Repository.MutateEntity | tests/unit/examples/test_example_8.py:48-70 | a creation event answers with a new entity, any other mutates the one given |
| EventStore.Repository.MutateThrough | tests/unit/examples/test_example_8.py:181-183 | the loop rebinding the entity is the replay of the events found |
| EventStore.Repository.RehydrateEntity | tests/unit/examples/test_example_8.py:169-183 | snapshot if any, then the events after it, up to the bound |
| EventStore.Repository.FindBy | tests/unit/examples/test_example_8.py:146-150 | the rehydrated entity with an empty queue |
| EventStore.Repository.Save | tests/unit/examples/test_example_8.py:152-167 | the queue is drained even when the append is refused; the stream gets what the append loop wrote; an accepted append is followed by the captures due by class version, up to the first that raises: none when no class version is a multiple of the interval, and none past the greatest class version |
| EventStore.Repository.CaptureSnapshots | tests/unit/examples/test_example_8.py:157-167 | the loop over the appended events: the snapshots it adds and whether it raises, by class version and interval, an interval of zero included |
| EventStore.Repository.CaptureSnapshot | tests/unit/examples/test_example_8.py:160-167 | the entity rehydrated up to a version is stored as the newest snapshot |
| EventStoreSystem.RunKeepsVersions | src/pyddd/infrastructure/persistence/event_store/in_memory.py:23-44 | after every run of every aggregate class: each stream is numbered 1..n, carries its own reference and is the saved batches; each queue follows on from a prefix of its stream; snapshots are of versions in it |
| EventStoreSystem.SaveIsAtomic | src/pyddd/infrastructure/persistence/event_store/in_memory.py:25-30 | where versions are right, as they are after every run, a save writes its whole queue or nothing |
| EventStoreSystem.SaveSucceedsIff | src/pyddd/infrastructure/persistence/event_store/in_memory.py:25-30 | after every run a non-empty save succeeds iff the client's base version is the stream's length; otherwise no stream changes |
| EventStoreSystem.CreationSucceedsIff | tests/unit/examples/test_example_8.py:186-190 | after every run creating and saving succeeds iff the stream is empty |
| EventStoreSystem.HistoryOnlyGrows | src/pyddd/infrastructure/persistence/event_store/in_memory.py:25-30 | later steps only extend a stream |
| EventStoreSystem.OtherClientsStay | src/pyddd/infrastructure/persistence/event_store/in_memory.py:23-44 | no step touches a client that is not its own |
| EventStoreSystem.OtherTablesStay | src/pyddd/infrastructure/persistence/event_store/in_memory.py:23-60 | only a save writes events and only a capture snapshots, each of its own aggregate alone |
| EventStoreHistory.RunKeepsInv | src/pyddd/infrastructure/persistence/event_store/in_memory.py:23-44 | after every honest run: the stream is a committed history, its snapshots are of committed state, each unspoiled client of it stands on a prefix of it |
| EventStoreHistory.AllStandIff | src/pyddd/domain/event_sourcing.py:143-146 | throughout a run every client of an aggregate stands on the replay of its stream's prefix and its queue, over one serial history with committed snapshots, iff no handler of it raised after changing the state and every state captured round-trips |
| EventStoreHistory.FireKeepsPrefixIff | src/pyddd/domain/event_sourcing.py:143-146 | one trigger leaves the client on the replay of its events iff its handler, should it raise, leaves the state alone |
| EventStoreHistory.OneSerialHistory | src/pyddd/infrastructure/persistence/event_store/in_memory.py:23-34 | after every honest run: versions 1..n in insertion order; event i was produced on the replay of the i events before it; the stream is the successful saves joined in order |
| EventStoreHistory.LoadGivesCommittedState | tests/unit/examples/test_example_8.py:146-150 | after every honest run a load does not raise and gives the full replay |
| EventStoreCreation.OnlyFirstEventCreates | src/pyddd/domain/event_sourcing.py:136-141 | in every run a stream has at most one creation, as its first event |
| EventStoreCreation.LoadGivesState | tests/unit/examples/test_example_8.py:146-150 | after every honest run a load gives the state that the stream's payloads lead to from the one its creation built, or from the blank one |
| EventStoreCreation.CreationIsLoaded | tests/unit/examples/test_example_8.py:186-190 | what was created and saved on an empty stream is what anybody loads next: the state built, at version 1 |
| EventStoreHistory.UninterruptedUpdate | tests/unit/examples/test_example_8.py:193-204 | load, trigger, save in one go commits exactly the accepted event at the next version |
| EventStoreHistory.CaptureStoresCommittedState | tests/unit/examples/test_example_8.py:157-167 | a captured snapshot is of committed state and changes no stream |
| EventStoreCaptures.SaveIsAppendThenCaptures | tests/unit/examples/test_example_8.py:152-167 | after every honest run no capture of an accepted save raises, and the save as a whole is the append step followed by one capture step for each class version of its batch that is due |
| EventStoreCaptures.SnapshotsStayLow | tests/unit/examples/test_example_8.py:157-167 | in every run no snapshot gets past the greatest version a capture asked for, however long the stream |
| EventStoreConflicts.KeptAfterConflict | src/pyddd/domain/event_sourcing.py:151-154 | a client kept after a refused save in a reachable state, after any triggers of its own and any steps of others since: its next save is accepted iff its version at the conflict has reached the stream's length, and leaves a gap iff that is past it |
| EventStoreConflicts.KeptSaveIsSerialIff | src/pyddd/domain/event_sourcing.py:151-154 | with those triggers clean, that save is accepted with every event produced on the replay of exactly the events before it iff the entity kept equals the stream's replay |
| EventStoreConflicts.KeptClientLosesAnUpdate | src/pyddd/domain/event_sourcing.py:151-154 | a concrete run of such a client that loses an update |
| EventStoreConflicts.DirtyRunBreaksHistory | src/pyddd/domain/event_sourcing.py:143-146 | a run with a handler that raises halfway, after which a committed event was not produced on the replay of those before it |
| StreamGroup.ReplySelects | src/pyddd/infrastructure/transport/asyncio/redis/stream_group/consumer.py:122-129 | a reply is increasing, within the limit, past the cursor, and own pending or new |
| StreamGroup.ReplySkipsNothing | src/pyddd/infrastructure/transport/asyncio/redis/stream_group/consumer.py:122-129 | nothing asked for and below the reply's last id is left out |
| StreamGroup.HistoryContinues | src/pyddd/infrastructure/transport/asyncio/redis/stream_group/consumer.py:152-157 | own history read from the last id replied is exactly the rest |
| ConsumerGroup.RunKeepsInv | src/pyddd/infrastructure/transport/asyncio/redis/stream_group/consumer.py:98-120 | the invariant of server, sessions and deliveries after every run |
| ConsumerGroup.EntriesAreConserved | src/pyddd/infrastructure/transport/asyncio/redis/stream_group/consumer.py:117-136 | entries from the group's start to the last handed out are the disjoint union of acknowledged and pending; each entry is ever delivered to one consumer |
| ConsumerGroup.SessionDeliversInOrder | src/pyddd/infrastructure/transport/asyncio/redis/stream_group/consumer.py:98-115 | within a session delivered ids strictly increase across all cursor switches |
| ConsumerGroup.SettledAtMostOnce | src/pyddd/infrastructure/transport/asyncio/domain/queue.py:43-51 | no delivery is settled twice |
| GroupDeliveries.EveryMessageIsHandled | src/pyddd/infrastructure/transport/asyncio/domain/queue.py:44-50 | after every run every message a session was given, each one of every reply, has its callback running or finished |
| GroupDeliveries.StartsAndEndsIff | src/pyddd/infrastructure/transport/asyncio/domain/queue.py:44-50 | a callback starts iff a read of that session gives its message for the first time, and ends iff it is settled |
| GroupDeliveries.OpenUntilSettled | src/pyddd/infrastructure/transport/asyncio/domain/queue.py:43-51 | from any reachable state, through restarts too: a callback stays open iff it is not settled since, and once settled stays so |
| GroupDeliveries.SettlingAcknowledgesIff | src/pyddd/infrastructure/transport/asyncio/redis/stream_group/consumer.py:131-136 | every message given whose callback has not finished: settling it takes its entry and no other out of the pending map iff it is acked or rejected without requeue and the request arrives; else the server is unchanged |
| ConsumerGroup.LeavesPendingOnlyBySettlement | src/pyddd/infrastructure/transport/asyncio/redis/stream_group/consumer.py:131-136 | an entry leaves the pending map iff its own open delivery is settled with an acknowledgement that arrives; otherwise its owner stays |
| ConsumerGroup.RestartRecovers | src/pyddd/infrastructure/transport/asyncio/redis/stream_group/consumer.py:98-120 | what is pending at a bind stays pending or is acknowledged, and once the session asked for new entries each of it was delivered in this session or acknowledged |
| ConsumerGroup.CatchingUpDeliversAllPending | src/pyddd/infrastructure/transport/asyncio/redis/stream_group/consumer.py:147-157 | when the cursor first turns to ">", everything pending for the consumer was delivered in this session |
| ConsumerGroup.CatchesUpInTime | src/pyddd/infrastructure/transport/asyncio/redis/stream_group/consumer.py:98-115 | with p pending at bind and limit n, ">" is reached within p / n rounded up plus one successful reads |
| ConsumerGroup.SteadyReadsAlternate | src/pyddd/infrastructure/transport/asyncio/redis/stream_group/consumer.py:152-157 | past the first ">" a read from an id is empty and turns back to ">" |
| ConsumerGroup.LostReplyWaitsForRestart | src/pyddd/infrastructure/transport/asyncio/domain/queue.py:44-50 | when a reply with new entries is lost, no later read of that session delivers any of them, and each stays pending until acknowledged |
| ConsumerGroup.UndeliveredIffReplyLost | src/pyddd/infrastructure/transport/asyncio/redis/stream_group/consumer.py:98-115 | once a session has asked for new entries, an entry pending for the consumer is undelivered in it iff a reply that carried it was lost in it |
| ConsumerGroup.ReplyCanBeLost | src/pyddd/infrastructure/transport/asyncio/domain/queue.py:44-50 | a run in which it happens, for any consumer, limit and entry |
| ConsumerGroup.NewEntryReachesReader | src/pyddd/infrastructure/transport/asyncio/redis/stream_group/consumer.py:98-115 | an entry published while a consumer waits is its next delivery and becomes its own |
| ConsumerGroup.WaitingEntriesAreDrained | src/pyddd/infrastructure/transport/asyncio/redis/stream_group/consumer.py:98-115 | with q entries past the last one handed out, a caught-up consumer with limit n that alone reads, losing no reply, has delivered each of them after twice q / n rounded up successful reads, whatever is published and settled meanwhile |
| StreamConsumer.GroupStreamHandler.Bind | src/pyddd/infrastructure/transport/asyncio/redis/stream_group/consumer.py:117-120 | a fresh tracker from "0"; an existing group is kept |
| StreamConsumer.NewGroupHandsOutLater | src/pyddd/infrastructure/transport/asyncio/redis/stream_group/consumer.py:117-120 | in every run of a group created by a bind: no entry the topic had before is ever handed out, and none published since is skipped |
| StreamConsumer.GroupStreamHandler.Read | src/pyddd/infrastructure/transport/asyncio/redis/stream_group/consumer.py:98-115 | the loops build one message per entry and move the tracker; on an exception the tracker has not moved, whatever the server did |
| StreamConsumer.NotificationQueue.Bind | src/pyddd/infrastructure/transport/asyncio/domain/queue.py:28-30 | binding is the bind step of the group |
| StreamConsumer.NotificationQueue.Consume | src/pyddd/infrastructure/transport/asyncio/domain/queue.py:32-36 | one more pull task per bound topic, exactly; tasks of earlier calls stay |
| StreamConsumer.NotificationQueue.StopConsume | src/pyddd/infrastructure/transport/asyncio/domain/queue.py:38-41 | the queue no longer runs and every task ever started is cancelled |
| StreamConsumer.NotificationQueue.PullOnce | src/pyddd/infrastructure/transport/asyncio/domain/queue.py:44-50 | one turn is one step of the group; an error creates no task |
| StreamConsumer.NotificationQueue.LongPull | src/pyddd/infrastructure/transport/asyncio/domain/queue.py:43-51 | until it is stopped, the loop together with what others do between its reads is a run of the group; its tasks are the messages delivered, once each, in order |
| StreamConsumer.PublishedMessage.Ask | src/pyddd/infrastructure/transport/asyncio/redis/stream_group/consumer.py:131-136 | a requeue sends nothing; anything else acknowledges |
| StreamConsumer.PublishedMessage.Ack | src/pyddd/infrastructure/transport/asyncio/domain/notification.py:39-43 | ack leaves the requeue flag unset |
| StreamConsumer.Process | src/pyddd/infrastructure/transport/asyncio/domain/ask_policy.py:15-49 | none or exactly one request: reject if the event cannot be built or nothing answers, requeue if all handlers raised, ack if one did not, none if the application raised; an acknowledging request that arrives takes the entry and no other out of the pending map, and is the settlement step of the runs |
| AskPolicy.VerdictsAre | src/pyddd/infrastructure/transport/asyncio/domain/ask_policy.py:15-49 | rejected for good iff the event could not be built or no handler answered, untouched iff the application raised, requeued iff all handlers raised, acknowledged iff one returned or was cancelled |
| AskPolicy.CancelledCountsAsHandled | src/pyddd/infrastructure/transport/asyncio/domain/ask_policy.py:39-47 | a message is acknowledged although no handler returned iff none returned and one was cancelled |
| EntryFate.EntryLeavesPendingIff | src/pyddd/infrastructure/transport/asyncio/domain/ask_policy.py:21-49 | from subscriptions to the server: exactly when a processed entry leaves the pending map |
| JsonGraph.ParseSucceedsIff | src/pyddd/domain/types.py:127-172 | parsing succeeds iff no container is reached by two paths and no marked one at all |
| JsonGraph.ParsedValueIsTree | src/pyddd/domain/types.py:134-152 | after a success exactly the containers reached are newly marked |
| JsonGraph.CyclesAreRejected | src/pyddd/domain/types.py:134-152 | every cycle reachable from the value is rejected |
| JsonGraph.SharingIsRejected | src/pyddd/domain/types.py:134-152 | an acyclic list that holds another twice is refused with the circular-reference error |
| JsonGraph.ValueIsBuilt | src/pyddd/domain/types.py:134-152 | what is built is fresh, held in one place each, and owns everything when enum members hold no container |
| JsonGraph.ValueMirrors | src/pyddd/domain/types.py:109-177 | along every path the copy has what the original becomes there, and no path more: scalars themselves, dates their ISO text, other objects their text, enum members their value; mappings of the class built with the same keys; tuples stay tuples, every other sequence a list, or a tuple when frozen |
| JsonNormal.OwnsAllIff | src/pyddd/domain/types.py:174-177 | the copy holds only its own containers iff no enum member reached holds a container |
| JsonNormal.EnumValueAliases | src/pyddd/domain/types.py:112-117 | a concrete input whose list ends up inside the result |
| JsonNormal.NormalIff | src/pyddd/domain/types.py:154-177 | the copy is plain scalars and own containers throughout iff every enum member reached carries a plain scalar |
| JsonNormal.ReparseAgrees | src/pyddd/domain/types.py:154-177 | for values whose enum members carry plain scalars: parsing a parsed value always succeeds, and it gives what parsing the original gives unless it thaws a frozen value, where it does iff every sequence reached is a tuple |
| JsonStores.StoreCopies | src/pyddd/domain/types.py:185-187 | in any memory: a store is refused iff the value leads anywhere twice or back to the dict; else all that existed is unchanged and under the key lies the value's image, which shares nothing iff no enum member reached holds a container, and is normal when they hold plain scalars |
| JsonForest.ChangeKeepsForestIff | src/pyddd/domain/types.py:109-202 | changing a built container in place keeps the forest iff each container it then holds is built, free for it and given once |
| JsonForest.SetItemKeepsForestIff | src/pyddd/domain/types.py:185-187 | a successful store keeps the forest iff every container an enum member hands over is built, held nowhere but under that key at most, does not lead to the dict, and is handed over once |
| JsonForest.ConstructKeepsForestIff | src/pyddd/domain/types.py:123-132 | a successful construction keeps the forest iff every container an enum member hands over is built, held nowhere, and handed over once |
| JsonRuns.UpdateStopsAtFirstRefused | src/pyddd/domain/types.py:194-202 | an update is the stores before the first refused pair |
| JsonStores.PutThenGet | src/pyddd/domain/types.py:185-187 | the key has the new value and every other key what it had |
| JsonRuns.UpdateKeepsForestIff | src/pyddd/domain/types.py:194-202 | the memory is a forest after every store of an update iff each of those stores meets its condition in the memory it finds |
| JsonRuns.RunKeepsForestIff | src/pyddd/domain/types.py:123-202 | over every run, changes in place of built containers included, whatever the program owns: the memory is a forest after every step iff each step meets its condition in the memory it finds |
| JsonRuns.RunsKeepAForest | src/pyddd/domain/types.py:123-202 | after every such run: from a built container only built ones are reached, never itself, each held in one place |
| JsonRuns.InputsCannotReachIn | src/pyddd/domain/types.py:134-152 | whatever the program does to its own containers from then on is invisible inside built ones |
| JsonRuns.StoresStayInTheirTree | src/pyddd/domain/types.py:185-202 | a store, setdefault or update on one dict changes nothing in any value that does not lead to it |
| JsonRuns.UncleanStoreClosesACycle | src/pyddd/domain/types.py:112-117 | a run with an enum member over a list after which a dict lies inside itself |
| JsonObjects.Parser.ParseValue | src/pyddd/domain/types.py:162-172 | the dispatch with shared markers, in place |
| JsonObjects.Parser.ParseMapping | src/pyddd/domain/types.py:134-143 | the mapping branch with shared markers, in place |
| JsonObjects.Parser.FillMapping | src/pyddd/domain/types.py:140-143 | the result is filled key by key while its values are parsed |
| JsonObjects.Parser.ParseIterable | src/pyddd/domain/types.py:145-152 | the iterable branch with shared markers, in place |
| JsonObjects.Parser.ParseElements | src/pyddd/domain/types.py:151-152 | the comprehension over the elements |
| JsonObjects.JsonMemory.New | src/pyddd/domain/types.py:123-132 | construction succeeds iff nothing is reached twice; the new dict mirrors the mapping and is fresh |
| JsonObjects.JsonMemory.SetItem | src/pyddd/domain/types.py:185-187 | the store in place; a refused one changes nothing |
| JsonObjects.JsonMemory.SetDefault | src/pyddd/domain/types.py:189-192 | an existing key is left and returned; else the store |
| JsonObjects.JsonMemory.Update | src/pyddd/domain/types.py:197-202 | the loop of stores, stopping at the first refused |
| JsonObjects.JsonMemory.UpdateFrom | src/pyddd/domain/types.py:194-199 | updating from a dict read live, itself included, is updating from its pairs at the start |
| MessageVersions.Upcast | src/pyddd/domain/message.py:200-213 | the loop ends for every start and target and gives the composition, or raises from the future or at a missing or raising step |
| MessageVersions.UpcastIff | src/pyddd/domain/message.py:200-213 | a payload is loaded with a result iff a chain of answers leads to it, of one upcaster for each version from its class_version (1 without one) up to the target's predecessor; so at the target it is left alone and past it refused |
| MessageVersions.OnlyStepsBetweenCount | src/pyddd/domain/message.py:202-212 | upcasters below the payload's version or from the target's on make no difference, there or not |
| MessageVersions.UpcastSucceedsIff | src/pyddd/domain/message.py:200-213 | with upcasters that do not raise: success iff the payload's version <= target and every step between exists |
| MessageVersions.ComposeSplits | src/pyddd/domain/message.py:203-212 | the composition splits at any version between |
| MessageVersions.FirstStays | src/pyddd/domain/message.py:48-51 | no later registrations change a topic's class |
| MessageVersions.DomainMessagesCollection.Register | src/pyddd/domain/message.py:48-51 | refused iff another class was first; every topic keeps its first class |
| MessageVersions.DomainMessagesCollection.GetClass | src/pyddd/domain/message.py:53-56 | the class first registered, or an error |
| MessageVersions.RowReadsBack | src/pyddd/infrastructure/persistence/event_store/postgres.py:253-277 | what any row reads back as under the topic's present class |
| MessageVersions.RowRoundTripsIff | src/pyddd/infrastructure/persistence/event_store/postgres.py:253-277 | the row gives the very event back iff its stream is named after its reference and its payload is at its class's version, or older and left alone by the upcasts |
| MessageVersions.VersionOneRoundTrips | src/pyddd/infrastructure/persistence/event_store/postgres.py:253-277 | a row whose payload is at its class's version, in the stream of its reference, gives the event back |
| MessageVersions.RowReadsInSteps | src/pyddd/infrastructure/persistence/event_store/postgres.py:265-277 | reading at a later version is reading at any version between and upcasting on |
| MessageVersions.VersionTwoIsUpcastAgain | src/pyddd/infrastructure/persistence/event_store/postgres.py:253-277 | a concrete version-2 event that reads back changed |
| MessageVersions.RegistrationsKeepRows | src/pyddd/domain/message.py:48-56 | a row that can be read reads the same after any further registrations |
| MessageVersions.ReadRow | src/pyddd/infrastructure/persistence/event_store/postgres.py:265-277 | reading through the registry: lookup, upcast loop and the row's own fields give the event of the class first registered |
| Dispatch.ConditionsMean | src/pyddd/application/condition.py:5-108 | what each condition asks, part by part: none, attributes present, all of its parts, one of its parts, the failure of its part, attributes with just these values |
| Dispatch.MentionedDecides | src/pyddd/application/condition.py:23-108 | two events that agree on the attributes a condition mentions get the same answer, however deep the tree |
| Dispatch.AnswersSelect | src/pyddd/application/module.py:79-94 | the answers are those of exactly the subscriptions of the topic whose condition holds and whose command builds, in order, each with its own handler's outcome |
| Dispatch.EqualAnswersIff | src/pyddd/application/handler.py:35-43 | a subscription under Equal answers iff each named attribute has the value named |
| Dispatch.SubscriptionsAreIndependent | src/pyddd/application/module.py:79-94 | one subscription's outcome leaves every other call in place |
| Dispatch.ResultsAreIndependent | src/pyddd/application/executor.py:44-58 | and so for the result list: with asynchronous handlers, one subscription's outcome leaves every other result in place |
| Dispatch.Module.Subscribe | src/pyddd/application/module.py:55-72 | the topic table stays the registration log filtered by topic |
| Dispatch.Module.GetEventHandlers | src/pyddd/application/module.py:79-94 | the loop gives the answers of the flat log, failures dropped one by one; an unconditional subscription whose command builds always answers |
| Dispatch.ProcessHandlers | src/pyddd/application/executor.py:44-52 | one result per call in order; a handler that is not asynchronous makes it raise |
| Dispatch.Application.Include | src/pyddd/application/application.py:56-61 | a second module of a domain is refused |
| Dispatch.Application.Run | src/pyddd/application/application.py:63-78 | refused once stopped; the wrapper is replaced before the first signal, a lifespan that was entered once may refuse, and the flag is set before the last signal, so a start that raises there leaves the application running |
| Dispatch.Application.Stop | src/pyddd/application/application.py:80-91 | refused unless running; takes the wrapper's next turn, and a lifespan that raises leaves it neither running nor stopped |
| Dispatch.RunsIff | src/pyddd/application/application.py:63-91 | over every sequence of starts and stops, wherever they raise, for either kind of lifespan: it runs iff a start got past its lifespan before it was stopped and no later stop got past its first signal; never running and stopped at once |
| Dispatch.StoppedIff | src/pyddd/application/application.py:80-91 | it is stopped iff one of its stops, while it ran, got past its first signal and all the way through the wrapper |
| Dispatch.EnteredIff | src/pyddd/application/application.py:63-78 | the lifespan was entered or tried iff some start before any stop got past its first signal |
| Dispatch.RunningWrapper | src/pyddd/application/application.py:63-78 | while it runs, its wrapper is the one of its last start: fresh, entered or spent as that start ended |
| Dispatch.PlainStopIsFinal | src/pyddd/application/application.py:63-91 | a plain start and a plain stop end stopped, and every later start is refused |
| Dispatch.EndsForGood | src/pyddd/application/application.py:47-91 | once stopped, or once no longer running with a lifespan that can be entered only once, no sequence of starts and stops makes it run again |
| Dispatch.RestartsIffReenterable | src/pyddd/application/application.py:47-91 | an application whose lifespan raised during a stop is neither running nor stopped, and a start then gets it running iff the lifespan can be entered again |
| Dispatch.StopEntersLifespan | src/pyddd/application/application.py:63-91 | after a start that raised at its first signal, the stop of a running application enters the lifespan instead of leaving it, and raises if it cannot |
| Dispatch.Application.GetEventHandlers | src/pyddd/application/application.py:156-159 | module by module, the flat list of answers |
| Dispatch.Application.HandleEvent | src/pyddd/application/application.py:140-160 | raises unless running; else the flat list's results in order |
| Dispatch.AcknowledgedIff | src/pyddd/infrastructure/transport/asyncio/domain/ask_policy.py:21-49 | when a message is acknowledged, from the subscriptions alone |
| DomainName.Alphabet | src/pyddd/domain/types.py:46-48 | the letters and digits, by their characters |
| DomainName.TokensIff | src/pyddd/domain/types.py:46-48 | the expression's language is the local rule on dashes and digits |
| DomainName.BuildIff | src/pyddd/domain/types.py:28-34 | accepted iff every section is valid; the parent chain has one link per dot and joins to the text |
| DomainName.AcceptedIff | src/pyddd/domain/types.py:28-48 | for every text: accepted iff every section, but for one final newline, is non-empty and obeys the local rule |
| DomainName.AcceptedAsMeantIff | src/pyddd/domain/types.py:28-48 | an accepted name has only non-empty sections that obey the local rule iff it holds no newline |
| DomainName.FinalNewlineIsAccepted | src/pyddd/domain/types.py:46-48 | a concrete section with a newline that is accepted |

## Left out

- EventSourcing.RootEntity.CollectEvents: the generator is modelled as consumed to its end.
- StreamConsumer.GroupStreamHandler.Read: trackers are cursor values in a map, not tracker objects; blocking and payload contents are not modelled.
- StreamConsumer.NotificationQueue.LongPull: a stop takes effect between two turns; a read it interrupts is one whose reply is lost. The delay between reads and the task scheduler are not modelled.
- Dispatch.ProcessHandlers: a handler's outcome is a function of its command; side effects and the order of execution are not modelled.
- JsonObjects.Parser.ParseMapping: containers of a refused parse are unreachable and not kept; identities are handed out on entry.
- JsonRuns.RunKeepsForestIff: dict and list operations that JsonDict inherits are one arbitrary change of the container, not one operation each; key equality across number types is not modelled; FrozenJsonDict has no stores to model.
- MessageVersions.VersionOneRoundTrips: JSON encoding is assumed to round-trip, and pydantic's field validation to accept.
- Dispatch.Application.Run: this is the asynchronous variant; the synchronous one sets the flag before the lifespan. Signals and the lifespan are only places where a start or stop can raise; that a wrapper replaced by a later start is closed when it is collected is not modelled.
- Publishing to the stream, pub/sub consumers, retry strategies and unit of work: no protocol of their own.
- The synchronous ask policy with the synchronous executor: the policy takes the length of a generator and always ends in its error branch.
- Redis, PostgreSQL, connection pools and SQL: only the abstract state of a stream's group is kept.
- The two name suffixes of the in-memory store's tables: both tables are kept apart anyway.
- Command handling and dependency injection: settled by reading one branch.
- Deletion and trimming of stream entries, and claiming by another consumer: the source never does either.
