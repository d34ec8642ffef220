# Protocols over shared maps

A Dafny model of the services of this repository that keep state in Redis and in process
maps, and proofs of what their protocols keep over whole runs: order and last-writer-wins
in the storage service, the listings engine of the bptf-manager, the transactional outbox,
the two indexes of pending offers, prefab merging in place, and the inventory, price,
refresh, rate limit, backoff and clean-up logic around them.

`dafny verify dfyconfig.toml` checks everything. `Wrappers.dfy` and `Collections.dfy` hold what all share.

## How it is built

State is finite maps, sets and sequences. One Redis command, or one transaction or script,
is one step; what runs between two `await`s without such a command is one step; other
actors move between steps. Theorems quantify over every run of steps, and are proved from
an invariant that every step keeps. Beside most state machines stands a class with the
fields of the service; each of its methods is one piece of the service that runs without a
break, loops included, and its postcondition ties the new state to the step of the machine.
Locks and limiters of one slot are mutual exclusion, key expiry is off unless a property is
about time, and BullMQ ignores a job whose id is taken and frees the id before the completed
hook runs.

| Component | Machine and theorems | Imperative form |
|---|---|---|
| Storage writes | `WriteCoalescing.dfy` | `StorageService.dfy` |
| Outbox relay | `OutboxRelay.dfy` | `RelayService.dfy` |
| Refresh of current listings | `ListingsRefresh.dfy` | `CurrentListingsService.dfy` |
| Planning of listings | `ListingPlan.dfy` | `ManageListings.dfy` |
| Stored desired listings | `DesiredListings.dfy` | `DesiredListingsService.dfy` |
| Create batches | `BatchSelection.dfy` | `BatchSelection.dfy` |
| Waking up jobs | `WakeUp.dfy` | `ListingsQueue.dfy` |
| Pending offers | `PendingOffers.dfy`, `PendingAssets.dfy` | `PendingService.dfy` |
| Prefabs | `PrefabMerge.dfy` | `SchemaUtils.dfy` |
| Cached inventories | `InventoryUpdates.dfy` | `InventoriesService.dfy` |
| Prices | `Prices.dfy` | `PricesService.dfy` |
| Inventory refresh point | `RefreshPoint.dfy` | `RefreshService.dfy` |
| Rate limit spacing | `RateLimits.dfy` | pure |
| Inventory backoff | `Backoff.dfy` | `Backoff.dfy` |
| Poll data clean-up | `GarbageCollection.dfy` | `GarbageCollection.dfy` |

## What the code does not do

Where a property one would expect does not hold, the model follows the code and states
exactly when it does.

- The relay's notification handler compares with a name it is never called with; events wait
  for the one-second timer (`OutboxRelay.NotificationsStartNothing`).
- An event can be published more than once: when it is read again while more was published
  than removed, or when two processes have it in hand (`OutboxRelay.ReadRepeatsExactly`,
  `TwoLeadersPublishTwice`). Without either it is published once (`ExactlyOnceUndisturbed`).
- A deleted listing can come back, and a listing created beside the start of a refresh can be
  lost, because the temp keys and the deleted ids are read before the temp hashes are written
  (`ListingsRefresh.DeletedStaysDeletedExactly`, `KeysReadBeforeStartLosesCreated`).
- A refresh whose final copy runs twice, or that starts in the same millisecond as an earlier
  one, loses or revives listings (`ListingsRefresh.EndingTwiceTakesBack`,
  `ReusedStartTimeRevivesDeleted`); the other theorems are about refreshes that start at fresh
  times and end once.
- Job runs can follow one another without work, exactly while two are on the way and one of
  them will set the flag (`WakeUp.EveryOrderEndsExactlyWhenNoChase`, `TwoRequestsCanChase`).
  Every request is served soon all the same (`ServedSoonInAnyOrder`).
- An offer that arrives while a poll is between its read and its write disappears from
  the bot's table until an event or a poll brings it again, and its relation can stay behind
  (`PendingOffers.PollLosesNewOffer`, `PollKeepsDangling`).
- Redelivered inventory updates are announced again exactly if something was both gained and
  lost (`InventoryUpdates.RedeliveryChangesNothing`), and redelivered after others they undo
  what the others did to the same ids (`RedeliveryAfterOthers`).
- Deleting a price clears a name key without its separator and no item entry, and overwriting
  one keeps the entry of an old owner (`Prices.DeleteLeavesEntries`, `Prices.OldOwnerStays`).
  Saves lock other names than deletes and inventory loads do, so the sku index stays exact
  exactly as long as writes meet a guard (`Prices.WriteKeepsSkusExactly`,
  `StaleDeleteLeavesEntry`).
- After a dequeue two chains of refresh jobs can be alive (`RefreshPoint.OneChainEndsExactly`,
  `StartingBesideLeadsToTwo`), and a request can be left without any (`StrandedExactly`,
  `RequestIsStranded`).
- A refresh can end with a snapshot from before the point. When a job that has read the record
  can do so is stated exactly (`RefreshPoint.EndsTooEarlyExactly`); one that has yet to read it
  always can (`UnreadCanEndTooEarly`), so it depends on the order of two concurrent requests.
  `LateReadEndsTooEarly`, `RetryEndsTooEarly` and `TwoChainsEndTooEarly` are three ways there.
- The two backoffs part when the counter expires (`Backoff.ExpiryParts`).
- Offer data without any published state counts as completed, although a comment in the
  clean-up speaks of offers that were never published (`GarbageCollection.IsCompleted`).

## Model

| member | source | states |
|---|---|---|
| WriteCoalescing.OneOperationPerPath | libs/nestjs-storage/src/lib/nestjs-storage.service.ts:175-224 | In every interleaving of calls, starts, completions and callbacks a path has at most one unsettled operation, its latest, and every path with a next write has a current one. |
| WriteCoalescing.OperationsFollowCalls | libs/nestjs-storage/src/lib/nestjs-storage.service.ts:175-224 | The operations run on a path are an order-preserving subsequence of its calls; a call without one is still held as the next write or was superseded by a later call. |
| WriteCoalescing.ChainFindsNext | libs/nestjs-storage/src/lib/nestjs-storage.service.ts:190-195 | The callback chained behind a current write always finds the next write it looks up, which is why its cast is safe. |
| WriteCoalescing.PromiseSettlesAfterItsData | libs/nestjs-storage/src/lib/nestjs-storage.service.ts:146-224 | A caller is answered only after an operation on its path has settled that carried its data or the data of a later call. |
| WriteCoalescing.QuiescentHoldsLastCalls | libs/nestjs-storage/src/lib/nestjs-storage.service.ts:146-224 | When all is quiet both maps are empty, every caller is answered, and a path whose last operation succeeded holds exactly the data of its last call (a delete counts as null). |
| WriteCoalescing.NeverStuck | libs/nestjs-storage/src/lib/nestjs-storage.service.ts:146-224 | Unless all is quiet some completion, start or callback can happen. |
| WriteCoalescing.DrainsInExactlyWorkSteps | libs/nestjs-storage/src/lib/nestjs-storage.service.ts:146-224 | Without new calls every run, in whatever order, takes exactly the outstanding work in steps and then is quiet: nothing leaks and nothing loops. |
| WriteCoalescing.EngineLimitKept | libs/nestjs-storage/src/lib/nestjs-storage.service.ts:79-82 | No more operations are in the engine than the write concurrency allows. |
| WriteCoalescing.OldestStartsFirst | libs/nestjs-storage/src/lib/nestjs-storage.service.ts:208-224 | Over every run no operation starts before one that was queued earlier. |
| WriteCoalescing.CallIsTaken | libs/nestjs-storage/src/lib/nestjs-storage.service.ts:175-206 | A call is taken at any time, with the promise it is given. |
| StorageService.NestStorageService.Write | libs/nestjs-storage/src/lib/nestjs-storage.service.ts:165-168 | Is a call with data, and returns the promise of that call. |
| StorageService.NestStorageService.Delete | libs/nestjs-storage/src/lib/nestjs-storage.service.ts:170-173 | Is a call with null. |
| StorageService.NestStorageService.WriteOrDelete | libs/nestjs-storage/src/lib/nestjs-storage.service.ts:175-206 | Enqueues, chains behind the current write, or overwrites the data of the next write in place, exactly as a call of the state machine does, and returns its promise. |
| StorageService.NestStorageService.EnqueueWrite | libs/nestjs-storage/src/lib/nestjs-storage.service.ts:208-224 | Pushes one write and makes it the current write of its path. |
| StorageService.NestStorageService.ProcessWriteQueue | libs/nestjs-storage/src/lib/nestjs-storage.service.ts:146-163 | Takes the oldest queued write into the engine. |
| StorageService.NestStorageService.EngineSettled | libs/nestjs-storage/src/lib/nestjs-storage.service.ts:149-162 | Settles the operation; a success leaves exactly its data in the file, a failure leaves anything. |
| StorageService.NestStorageService.AfterWrite | libs/nestjs-storage/src/lib/nestjs-storage.service.ts:213-218 | Clears the current write exactly if no next write is held for the path. |
| StorageService.NestStorageService.AfterCurrent | libs/nestjs-storage/src/lib/nestjs-storage.service.ts:190-195 | Enqueues the data the next write holds by then and releases it; it is always there. |
| StorageService.NestStorageService.PerformAll | libs/nestjs-storage/src/lib/nestjs-storage.service.ts:146-224 | Whatever of these is called and settles in whatever order makes a run of the machine: at any time one operation of a path is under way, and once all is quiet both maps are empty and each path whose last operation succeeded holds the data of its last call. |
| OutboxRelay.NothingIsLost | libs/nestjs-relay/src/lib/nestjs-relay.service.ts:76-80 | With any number of believed leaders and failures between any two steps, every pushed event is published or still in the outbox, and the outbox loses only its oldest entry. |
| OutboxRelay.FirstPublicationsInOrder | libs/nestjs-relay/src/lib/nestjs-relay.service.ts:138-187 | First publications happen exactly in the order of the pushes without a gap, and nothing else is published. |
| OutboxRelay.RemoveTakesOldest | libs/nestjs-relay/src/lib/nestjs-relay.service.ts:183-184 | Removing a message in hand takes the oldest entry of the outbox or nothing, though another leader may have removed it before. |
| OutboxRelay.LeaderKeepsPolling | libs/nestjs-relay/src/lib/nestjs-relay.service.ts:126-165 | Whoever believes to be leader is inside its loop or has a timer that starts it, whatever fails. |
| OutboxRelay.TurnDeliversOldest | libs/nestjs-relay/src/lib/nestjs-relay.service.ts:167-187 | An undisturbed turn publishes exactly the oldest event, removes it and starts the next turn. |
| OutboxRelay.LeaderDrainsOutbox | libs/nestjs-relay/src/lib/nestjs-relay.service.ts:138-187 | A leader left alone for as many turns as there are entries empties the outbox, oldest first. |
| OutboxRelay.OnceExactlyWithoutRepeats | libs/nestjs-relay/src/lib/nestjs-relay.service.ts:167-187 | Over any run, each event was published once if and only if no step delivered a message that was published before. |
| OutboxRelay.ExactlyOnceUndisturbed | libs/nestjs-relay/src/lib/nestjs-relay.service.ts:167-187 | If only one process at a time has a message in hand, every delivery is confirmed, every removal takes the entry and nobody crashes between the two, what is published is exactly the oldest pushed events, each once: those removed and at most one more. |
| OutboxRelay.OldestIsPublishedExactly | libs/nestjs-relay/src/lib/nestjs-relay.service.ts:173-187 | The oldest entry was published already if and only if more events were published than removed. |
| OutboxRelay.ReadRepeatsExactly | libs/nestjs-relay/src/lib/nestjs-relay.service.ts:173-184 | A message read from the outbox repeats a publication when it is delivered, whatever happens in between that publishes nothing, if and only if more events had been published than removed at the read. |
| OutboxRelay.LosingTrackRepeats | libs/nestjs-relay/src/lib/nestjs-relay.service.ts:181-187 | A delivery that is reported as a failure, a removal that leaves the entry and a crash between the two each make the next undisturbed turn publish the event again. |
| OutboxRelay.TwoLeadersPublishTwice | libs/nestjs-relay/src/lib/nestjs-relay.service.ts:167-187 | So can two believed leaders: a run in which one event is published twice. |
| OutboxRelay.NotificationsStartNothing | libs/nestjs-relay/src/lib/nestjs-relay.service.ts:96-106 | The handler compares the channel with the bare outbox key, but is subscribed to the exchange name, a colon and the key: over every run the processes do what they would do without any notification. |
| OutboxRelay.ToldNoPublishesNothing | libs/nestjs-relay/src/lib/nestjs-relay.service.ts:168-171 | A process that is told it is not the leader neither reads the outbox nor publishes or removes anything until it is told otherwise, whatever happens in between. |
| OutboxRelay.ToldNoStaysOut | libs/nestjs-relay/src/lib/nestjs-relay.service.ts:138-171 | It does not ask again either until it is elected. |
| OutboxRelay.DemotedStaysOut | libs/nestjs-relay/src/lib/nestjs-relay.service.ts:132-141 | A process that is demoted while it does nothing has no timer and asks nobody anything until it is elected. |
| OutboxRelay.TimerStartsTurn | libs/nestjs-relay/src/lib/nestjs-relay.service.ts:158-162 | A timer fires once, and starts a turn exactly if the process is leader and not busy. |
| OutboxRelay.FailedTurnWaits | libs/nestjs-relay/src/lib/nestjs-relay.service.ts:151-181 | A turn that finds no entry, or in which a call fails at any point, publishes nothing more and waits for the timer. |
| OutboxRelay.FailureKeepsEffect | libs/nestjs-relay/src/lib/nestjs-relay.service.ts:181-184 | A publish that is reported as failed may have been delivered all the same, and such a removal may have taken the entry. |
| OutboxRelay.BareKeyWouldStart | libs/nestjs-relay/src/lib/nestjs-relay.service.ts:96-106 | Under the bare outbox key a notification would start an idle leader, and nobody else. |
| RelayService.Shared.LPush | libs/nestjs-relay/src/lib/nestjs-relay.service.ts:76-78 | Puts the event at the head of the outbox. |
| RelayService.Shared.LRem | libs/nestjs-relay/src/lib/nestjs-relay.service.ts:183-184 | Removes one entry equal to the message, the first from the head, if there is one. |
| RelayService.RelayService.Elected | libs/nestjs-relay/src/lib/nestjs-relay.service.ts:126-130 | Becomes leader and enters the loop. |
| RelayService.RelayService.Demoted | libs/nestjs-relay/src/lib/nestjs-relay.service.ts:132-136 | Stops being leader and clears the timer; work under way goes on. |
| RelayService.RelayService.OnTimeout | libs/nestjs-relay/src/lib/nestjs-relay.service.ts:158-162 | Enters the loop when the timer fires. |
| RelayService.RelayService.OnMessage | libs/nestjs-relay/src/lib/nestjs-relay.service.ts:96-106 | Ignores every channel but the bare outbox key. |
| RelayService.RelayService.Loop | libs/nestjs-relay/src/lib/nestjs-relay.service.ts:138-147 | Starts a turn unless one is under way or the process is no leader. |
| RelayService.RelayService.OnLeaderAnswer | libs/nestjs-relay/src/lib/nestjs-relay.service.ts:168-171 | Takes over the answer whether it is leader and ends the turn if not. |
| RelayService.RelayService.OnOutboxAnswer | libs/nestjs-relay/src/lib/nestjs-relay.service.ts:173-181 | Takes the oldest entry to publish it, or ends the turn. |
| RelayService.RelayService.OnPublished | libs/nestjs-relay/src/lib/nestjs-relay.service.ts:181-184 | Goes on to remove what was published, or ends the turn if the publish failed. |
| RelayService.RelayService.OnRemoved | libs/nestjs-relay/src/lib/nestjs-relay.service.ts:184-186 | Ends the turn, as one that processed a message unless the removal failed. |
| RelayService.RelayService.OnLoopEnd | libs/nestjs-relay/src/lib/nestjs-relay.service.ts:151-164 | Starts the next turn at once after a message, and otherwise sets the timer. |
| RelayService.Relay.PerformOne | libs/nestjs-relay/src/lib/nestjs-relay.service.ts:126-187 | Any piece of code of one of any number of processes on shared objects is the step of the machine, and moves no other process. |
| RelayService.Relay.PerformAll | libs/nestjs-relay/src/lib/nestjs-relay.service.ts:126-187 | However the pieces of the processes follow one another and fail, they make a run of the machine: from fresh processes no event is lost and first publications keep the order of the pushes. |
| ListingsRefresh.RefreshCopiesExactlyWhatWasSaved | apps/bptf-manager/src/listings/current-listings.service.ts:79-92 | However refreshes overlap, and however creates, updates, deletes and pages interleave between their reads of the temp keys and their writes, a final copy holds for each id exactly the listing last saved by a write that was told of the refresh, and none if a delete told of it came later. |
| ListingsRefresh.CreatedDuringRefreshSurvives | apps/bptf-manager/src/listings/current-listings.service.ts:413-461 | A listing created while a refresh runs and not deleted since survives the final copy of that refresh. |
| ListingsRefresh.UpdateWritesAnswers | apps/bptf-manager/src/listings/current-listings.service.ts:526-549 | An update writes exactly the listings it was answered about that were there when they were read and still are: each property that was answered, and each other as it was read, whatever runs beside it. |
| ListingsRefresh.RunningIsTold | apps/bptf-manager/src/listings/current-listings.service.ts:704-711 | Whoever reads the temp keys while a refresh runs is told of it. |
| ListingsRefresh.KeysReadBeforeStartLosesCreated | apps/bptf-manager/src/listings/current-listings.service.ts:681-702 | A run from the start in which a refresh begins between the two accesses of a create to the temp hashes and its final copy drops the created listing. |
| ListingsRefresh.DeletedStaysDeletedExactly | apps/bptf-manager/src/listings/current-listings.service.ts:226-246 | Once the delete of an active listing without keep flag has completed, no run without creating it again has it in the current listings, if and only if it is then among the deleted ids, in no temp hash of a refresh, and on no page read before and not yet saved. |
| ListingsRefresh.DeleteBarsExactly | apps/bptf-manager/src/listings/current-listings.service.ts:713-736 | The write of a delete to the temp hashes brings that about if and only if every tracked temp hash with the listing was there when it read the temp keys and no page with the listing is between its comparison and its save. |
| ListingsRefresh.DeleteIsFinal | apps/bptf-manager/src/listings/current-listings.service.ts:226-246 | A delete that met neither is final once it completes, whatever comes between its two writes. |
| ListingsRefresh.FlaggedIsKept | apps/bptf-manager/src/listings/current-listings.service.ts:206-237 | A listing that was flagged to be kept when a delete was requested, or that it does not name, is left by each step of the delete as it was, in the current listings, in every temp hash and among the deleted ids, whatever runs beside it. |
| ListingsRefresh.UnflaggedIsDeleted | apps/bptf-manager/src/listings/current-listings.service.ts:206-246 | A listing that it names and that was not flagged then is gone from the current listings after it, and before that was taken out of every temp hash there was when the temp keys were read, and noted as deleted; the flags of all it names are cleared. |
| ListingsRefresh.DeletedAllStaysDeletedExactly | apps/bptf-manager/src/listings/current-listings.service.ts:590-603 | A refresh under way at a delete-all leaves the current listings untouched when it ends, over every run, if and only if no write under way was told of it before. |
| ListingsRefresh.EndingTwiceTakesBack | apps/bptf-manager/src/listings/current-listings.service.ts:651-675 | A final copy that runs a second time, and a refresh that starts at the time of one that ended, take the current listings back to what the first copy left: a listing is dropped if and only if the temp hash did not have it at the first copy. |
| ListingsRefresh.ReusedStartTimeRevivesDeleted | apps/bptf-manager/src/listings/current-listings.service.ts:79-92 | A run from the start in which a listing is gone after its delete, and a refresh that starts in the millisecond of an earlier one, or ends twice, brings it back. |
| ListingsRefresh.PageReadBeforeDeleteRevivesListing | apps/bptf-manager/src/listings/current-listings.service.ts:625-632 | A run from the start in which a delete completes between the read of the deleted ids and the save of a page, and the listing comes back. |
| CurrentListingsService.CurrentListingsService.RefreshListings | apps/bptf-manager/src/listings/current-listings.service.ts:79-92 | Creates the temp hash with its placeholder and tracks it. |
| CurrentListingsService.CurrentListingsService.GetTempKeys | apps/bptf-manager/src/listings/current-listings.service.ts:704-711 | Returns exactly the tracked temp hashes that exist. |
| CurrentListingsService.CurrentListingsService.SaveTempListings | apps/bptf-manager/src/listings/current-listings.service.ts:689-702 | Writes the listings to the temp hashes that were read before, making those again that are gone, and takes their ids out of the deleted set. |
| CurrentListingsService.CurrentListingsService.DeleteTempListings | apps/bptf-manager/src/listings/current-listings.service.ts:721-736 | Removes the ids from the temp hashes that were read before and remembers them as deleted. |
| CurrentListingsService.CurrentListingsService.HandleListingsResponse | apps/bptf-manager/src/listings/current-listings.service.ts:623-632 | Takes the deleted ids off a page; without a listing left there is nothing to save. |
| CurrentListingsService.CurrentListingsService.ReadTempKeysForPage | apps/bptf-manager/src/listings/current-listings.service.ts:685-689 | Fixes the temp hashes a page will be saved to. |
| CurrentListingsService.CurrentListingsService.SavePage | apps/bptf-manager/src/listings/current-listings.service.ts:691-702 | Saves the listings left of a page to those temp hashes, whatever was deleted since. |
| CurrentListingsService.CurrentListingsService.HandleListingsFetched | apps/bptf-manager/src/listings/current-listings.service.ts:651-675 | Replaces the current listings by the temp hash without its placeholder, or leaves them alone if it is gone; either way it is no longer tracked. |
| CurrentListingsService.CurrentListingsService.HandleCreatedListings | apps/bptf-manager/src/listings/current-listings.service.ts:411-414 | Fixes the temp hashes created listings go to. |
| CurrentListingsService.CurrentListingsService.SaveCreatedInTemps | apps/bptf-manager/src/listings/current-listings.service.ts:411-414 | Created listings reach the temp hashes before the current listings. |
| CurrentListingsService.CurrentListingsService.SaveCreated | apps/bptf-manager/src/listings/current-listings.service.ts:443-461 | Created listings are written over the current ones. |
| CurrentListingsService.CurrentListingsService.ReadKeepFlags | apps/bptf-manager/src/listings/current-listings.service.ts:204-211 | Fixes which of the listings to delete are not flagged to be kept. |
| CurrentListingsService.CurrentListingsService.ReadTempKeysForDelete | apps/bptf-manager/src/listings/current-listings.service.ts:222-226 | Fixes the temp hashes listings are deleted from, if any are to be. |
| CurrentListingsService.CurrentListingsService.DeleteInTemps | apps/bptf-manager/src/listings/current-listings.service.ts:226-226 | Deleted listings leave the temp hashes first. |
| CurrentListingsService.CurrentListingsService.DeleteInCurrent | apps/bptf-manager/src/listings/current-listings.service.ts:228-246 | Deleted listings leave the current ones, and the keep flags of all ids are cleared. |
| CurrentListingsService.CurrentListingsService.OverwriteListings | apps/bptf-manager/src/listings/current-listings.service.ts:526-541 | Lays what was answered over each listing that is there when it is read, property by property. |
| CurrentListingsService.CurrentListingsService.UpdateExisting | apps/bptf-manager/src/listings/current-listings.service.ts:543-549 | Writes what resulted, of listings that still exist only. |
| CurrentListingsService.CurrentListingsService.ReadTempKeysForUpdate | apps/bptf-manager/src/listings/current-listings.service.ts:551-554 | Fixes the temp hashes updated listings go to, if any were written. |
| CurrentListingsService.CurrentListingsService.SaveUpdatedInTemps | apps/bptf-manager/src/listings/current-listings.service.ts:551-554 | Passes exactly the listings written on to those temp hashes. |
| CurrentListingsService.CurrentListingsService.ReadTempKeysForDeleteAll | apps/bptf-manager/src/listings/current-listings.service.ts:590-590 | Fixes the temp hashes a delete-all will remove. |
| CurrentListingsService.CurrentListingsService.DeleteAllListings | apps/bptf-manager/src/listings/current-listings.service.ts:592-603 | Removes the current listings and those temp hashes. |
| CurrentListingsService.CurrentListingsService.PerformAll | apps/bptf-manager/src/listings/current-listings.service.ts:204-246 | Whatever of these is called in whatever order makes a run of the machine: with fresh start times and refreshes that end once, a delete is final if and only if it barred the listing. |
| CurrentListingsService.CurrentListingsService.Refresh | apps/bptf-manager/src/listings/current-listings.service.ts:79-92 | A refresh from its start to its final copy, with whatever runs beside it, leaves for each id exactly the listing last saved by a write that was told of it. |
| ListingPlan.HeldIdsAreUniqueAndCurrent | apps/bptf-manager/src/listings/manage-listings.service.ts:718-774 | After a plan no two desired listings hold one id, and every id held is a current listing. |
| ListingPlan.CurrentSplitsIntoHeldAndRemoved | apps/bptf-manager/src/listings/manage-listings.service.ts:813-827 | The current listings split exactly into those held by one desired listing and those to remove. |
| ListingPlan.FirstClaimantKeepsListing | apps/bptf-manager/src/listings/manage-listings.service.ts:761-774 | A current listing that is claimed is never removed: its first claimant keeps it unchanged. |
| ListingPlan.HeldExactly | apps/bptf-manager/src/listings/manage-listings.service.ts:718-774 | After a plan a listing holds an id if and only if it had it, is not marked duplicate, the id is current and no earlier unmarked listing has it; it is marked duplicate exactly if it was or an earlier one has it, and nothing else about it changes. |
| ListingPlan.LaterClaimantsAreMarked | apps/bptf-manager/src/listings/manage-listings.service.ts:761-774 | Who claims an id that an earlier one claims loses it, is marked duplicate, is noted as such and is not queued, whether or not the listing still exists. |
| ListingPlan.QueuesAreDisjoint | apps/bptf-manager/src/listings/manage-listings.service.ts:776-811 | Nothing is queued to be both created and updated, and nothing marked duplicate is queued. |
| ListingPlan.LeftAloneExactlyWhenInSync | apps/bptf-manager/src/listings/manage-listings.service.ts:744-811 | A desired listing without error is in neither queue exactly if it keeps a current listing with its own content. |
| ListingPlan.KeptListingNeeds | apps/bptf-manager/src/listings/manage-listings.service.ts:922-964 | A listing without error, or with an invalid item, that keeps a current listing is created anew if and only if the quantities differ, a missing one being 1, and updated if and only if they agree and keys, metal or details differ, missing ones being 0, 0 and empty. |
| ListingPlan.MissingItemsAreTriedAgain | apps/bptf-manager/src/listings/manage-listings.service.ts:779-811 | An item that did not exist is tried again once the inventory was updated after the attempt, and left alone exactly while the attempt is later by more than the clocks may differ and a second; invalid and duplicate ones without a listing are left alone. |
| ListingPlan.PlanningIsAFixpoint | apps/bptf-manager/src/listings/manage-listings.service.ts:703-827 | Planning again over the result, with the same listings and inventory, gives the same queues and no changes. |
| ListingPlan.PlanningAgainInAnyOrder | apps/bptf-manager/src/listings/manage-listings.service.ts:703-827 | The same holds for a second plan over the stored result in whatever order the hash is read: same queues and removals, no listing altered. |
| ListingPlan.ChangesAt | apps/bptf-manager/src/listings/manage-listings.service.ts:718-774 | A change is noted for exactly the listings that lose their id, with the id they had and whether as duplicates. |
| ListingPlan.ChangeExactly | apps/bptf-manager/src/listings/manage-listings.service.ts:718-774 | A change names the id that the listing had, and says duplicate exactly if the plan marks it. |
| ListingPlan.ApplyingChangesStoresThePlan | apps/bptf-manager/src/listings/manage-listings.service.ts:861-876 | If nothing was stored in between, applying the changes leaves exactly the planned listings stored. |
| ListingPlan.StaleChangesAreSkipped | apps/bptf-manager/src/listings/manage-listings.service.ts:861-876 | A listing that got another id, lost its id or was removed meanwhile is neither changed nor stored again; all others end up with the planned id. |
| ManageListings.DesiredListing.SetID | apps/bptf-manager/src/listings/classes/desired-listing.class.ts:39-43 | Changes the id and nothing else. |
| ManageListings.DesiredListing.SetError | apps/bptf-manager/src/listings/classes/desired-listing.class.ts:67-72 | Changes the error and nothing else. |
| ManageListings.MatchListing | apps/bptf-manager/src/listings/manage-listings.service.ts:718-758 | Drops the id of a duplicate or of a listing that is gone, and otherwise says what the current listing needs. |
| ManageListings.CheckListings | apps/bptf-manager/src/listings/manage-listings.service.ts:718-759 | The first pass: every desired listing is matched in place, the queues hold what matches need, the changes what was dropped, and the claims on each id are listed in order. |
| ManageListings.MarkDuplicatesOf | apps/bptf-manager/src/listings/manage-listings.service.ts:761-774 | Every claimant of an id but the first is marked duplicate, loses its id and leaves the queues. |
| ManageListings.MarkDuplicates | apps/bptf-manager/src/listings/manage-listings.service.ts:761-774 | The second pass does so for every id, in whatever order the ids come. |
| ManageListings.Reconcile | apps/bptf-manager/src/listings/manage-listings.service.ts:718-774 | After two passes the objects have the values of the plan, the changes are those of the plan and the queues hold what the kept listings need. |
| ManageListings.IsQueued | apps/bptf-manager/src/listings/manage-listings.service.ts:779-806 | The guards of the third pass let through exactly the listings to try again: invalid and duplicate ones never, items that did not exist only after the inventory was refreshed. |
| ManageListings.QueueAllForCreation | apps/bptf-manager/src/listings/manage-listings.service.ts:779-811 | The third pass moves what is to be created from the update queue to the create queue, which gives exactly the queues of the plan. |
| ManageListings.MapCurrent | apps/bptf-manager/src/listings/manage-listings.service.ts:708-709 | The current listings by id, the last of two with one id. |
| ManageListings.ListingsToRemove | apps/bptf-manager/src/listings/manage-listings.service.ts:813-827 | Exactly the current listings no desired listing holds. |
| ManageListings.PlanListings | apps/bptf-manager/src/listings/manage-listings.service.ts:703-827 | The passes over objects, maps and sets compute exactly the plan: the values of the listings, the three queues and the changes. |
| ManageListings.MutateStored | apps/bptf-manager/src/listings/manage-listings.service.ts:864-876 | The mutation given to the locked update changes each stored listing exactly as the plan applied to it does. |
| DesiredListings.OperationsAreAtomic | apps/bptf-manager/src/listings/desired-listings.service.ts:46-227 | However saves, removals and updates interleave between locking, reading and writing, the store is what the operations make of it one after the other, in the order of their writes. |
| DesiredListings.StoreIsAllWritten | apps/bptf-manager/src/listings/desired-listings.service.ts:46-227 | From the start on it is what all operations that wrote make of an empty store. |
| DesiredListings.WriteIsAtomic | apps/bptf-manager/src/listings/desired-listings.service.ts:204-227 | What an operation writes back is what it would make of the store at that moment: its locks kept what it read current. |
| DesiredListings.EachListingOnItsOwn | apps/bptf-manager/src/listings/desired-listings.service.ts:46-227 | However operations interleave, each listing is what the operations that name it make of it alone, in the order of their writes. |
| DesiredListings.UpdatesOnlyChange | apps/bptf-manager/src/listings/desired-listings.service.ts:191-227 | Over any interleaving of updates alone exactly the same listings stay stored. |
| DesiredListings.RemovedUntilAdded | apps/bptf-manager/src/listings/desired-listings.service.ts:149-188 | Over any interleaving a listing that a removal names is not stored at the end unless an operation that writes after the removal adds it. |
| DesiredListings.GoneUntilAdded | apps/bptf-manager/src/listings/desired-listings.service.ts:190-227 | Over any interleaving a removed listing stays away until an operation adds it: nothing under way saves it back. |
| DesiredListings.SaveKeepsProgress | apps/bptf-manager/src/listings/desired-listings.service.ts:46-123 | Saving keeps the id, error and last attempt of a stored listing and takes the new content; replacing removes exactly the stored listings whose hashes were read before and are not set. |
| DesiredListings.InheritsExactly | apps/bptf-manager/src/listings/classes/add-desired-listing.class.ts:30-58 | What is inherited of a stored listing, field by field; a listing of another quantity is forced, a missing quantity being 1. |
| DesiredListings.OperationRuns | apps/bptf-manager/src/listings/desired-listings.service.ts:46-227 | Once nobody holds one of its hashes an operation can run to its end, and leaves its locks free, also when it gives up. |
| DesiredListings.PlanIsAnUpdate | apps/bptf-manager/src/listings/manage-listings.service.ts:861-876 | Applying the changes of a plan is one such update. |
| DesiredListingsService.AddDesiredListing.Inherit | apps/bptf-manager/src/listings/classes/add-desired-listing.class.ts:30-58 | Takes over id, error and last attempt if they are set, and forces a listing whose quantity changed. |
| DesiredListingsService.AddDesiredListing.IsDifferent | apps/bptf-manager/src/listings/classes/add-desired-listing.class.ts:19-28 | True if forced or of other content. |
| DesiredListingsService.CompareAndUpdateDesired | apps/bptf-manager/src/listings/desired-listings.service.ts:125-147 | Every listing to add inherits in place from the stored one, and exactly the new, forced and different ones are reported. |
| DesiredListingsService.ChangedMeansForcedOrDifferent | apps/bptf-manager/src/listings/classes/add-desired-listing.class.ts:19-58 | A changed quantity is different content already, so only force and content decide what is reported. |
| BatchSelection.GetListingsToCreate | apps/bptf-manager/src/listings/manage-listings.service.ts:361-427 | Computes the selection from the desired listings, the queue and the limits, and fails if there are no limits. |
| BatchSelection.BatchIsQueued | apps/bptf-manager/src/listings/manage-listings.service.ts:361-427 | A batch has at most the wanted number of distinct hashes, all queued. |
| BatchSelection.NewOnesFitFreeSlots | apps/bptf-manager/src/listings/manage-listings.service.ts:407-421 | Hashes without a listing id never exceed the free slots, and there are none unless every queued one with an id is in the batch. |
| BatchSelection.NewOnesByPriority | apps/bptf-manager/src/listings/manage-listings.service.ts:407-421 | Nothing ranked before a new hash in the batch is left behind. |
| BatchSelection.KnownOnesInOrder | apps/bptf-manager/src/listings/manage-listings.service.ts:385-400 | Hashes with an id are taken in the order they are stored. |
| BatchSelection.KnownInStoredOrder | apps/bptf-manager/src/listings/manage-listings.service.ts:385-400 | They stand in the batch in that order. |
| BatchSelection.WithIdExactly | apps/bptf-manager/src/listings/manage-listings.service.ts:371-374 | A hash counts as one with an id exactly if some desired listing of that hash has one. |
| BatchSelection.WithIdInOrder | apps/bptf-manager/src/listings/manage-listings.service.ts:371-374 | They come in the order in which the listings are stored. |
| BatchSelection.ShortBatchLeavesNothing | apps/bptf-manager/src/listings/manage-listings.service.ts:361-427 | A batch falls short only if every queued hash with an id is in it and the free slots or the queue are used up. |
| WakeUp.NoWakeUpIsLost | apps/bptf-manager/src/listings/manage-listings.service.ts:302-315 | In every interleaving of callers, runs, retries and hooks, a request whose call returned was served by a later read of the queue, or a run that will still read waits or is under way, or a hook will find the flag set, or somebody is about to add the job. |
| WakeUp.QuietMeansServed | apps/bptf-manager/src/listings/processors/manage-listings.processor.ts:309-319 | When no job, hook or call is left, every request was served and the flag is clear, and whatever is queued was left by the last read, of which the batch was not full. |
| WakeUp.QuietMeansEmpty | apps/bptf-manager/src/listings/manage-listings.service.ts:655-675 | A queue of which runs take all that fits, as those of the delete and update jobs, is then empty. |
| WakeUp.QuietMeansNothingToCreate | apps/bptf-manager/src/listings/manage-listings.service.ts:361-427 | What is then left to create are listings without an id, and the last batch took as many new ones as slots were free. |
| WakeUp.StartsQuiet | apps/bptf-manager/src/listings/manage-listings.service.ts:302-315 | At the start nothing is queued and all is quiet. |
| WakeUp.BatchesAreBounded | apps/bptf-manager/src/listings/manage-listings.service.ts:655-675 | A batch has at most a hundred members, all queued; one of all that fits has a hundred if so many are queued, and else is the queue. |
| WakeUp.AnytimeSteps | apps/bptf-manager/src/listings/manage-listings.service.ts:302-315 | Work can be withdrawn at any time, and any job there is can start over at any point. |
| WakeUp.WorkLeavesHandled | apps/bptf-manager/src/listings/manage-listings.service.ts:655-675 | Over any run, work that was queued and no longer is was in a batch that a run read and that this run then handled, without another run reading or starting over in between, or was withdrawn. |
| WakeUp.CanAlwaysFinish | apps/bptf-manager/src/listings/processors/manage-listings.processor.ts:46-51 | From every reachable state jobs can run to a quiet state with every request served and the queue empty, without further requests. |
| WakeUp.NeverStuck | apps/bptf-manager/src/listings/processors/manage-listings.processor.ts:309-319 | Until all is quiet some step can be taken. |
| WakeUp.NoReadForLong | apps/bptf-manager/src/listings/processors/manage-listings.processor.ts:46-51 | Without a read of the queue no more steps can be taken than the calls, hooks and job of the state tell, in whatever order. |
| WakeUp.ServedSoonInAnyOrder | apps/bptf-manager/src/listings/processors/manage-listings.processor.ts:46-51 | From every reachable state, every order of steps without new requests serves every request within one step more than that, or is quiet before with every request served. |
| WakeUp.EveryOrderEndsExactlyWhenNoChase | apps/bptf-manager/src/listings/processors/manage-listings.processor.ts:309-319 | Every order of steps without new requests ends, within a number of steps the state tells, if and only if at most one of the calls, hooks and job is on its way or none of them will set the flag; otherwise there are runs of any length. |
| WakeUp.AloneEveryOrderEnds | apps/bptf-manager/src/listings/processors/manage-listings.processor.ts:309-319 | With at most one on the way every order ends, however much is queued, and where it can go no further all is quiet and served. |
| WakeUp.TwoRequestsCanChase | apps/bptf-manager/src/listings/processors/manage-listings.processor.ts:309-319 | Two requests that bring work are enough for progress without end: a run from the start served both and emptied the queue, and a call that sets the flag late makes the next hook such a call. |
| ListingsQueue.ListingsQueue.QueueWork | apps/bptf-manager/src/listings/manage-listings.service.ts:149-179 | Queues work before the job is asked for. |
| ListingsQueue.ListingsQueue.CreateJobSetsFlag | apps/bptf-manager/src/listings/manage-listings.service.ts:302-303 | Sets the flag before the job is added. |
| ListingsQueue.ListingsQueue.CreateJobAdds | apps/bptf-manager/src/listings/manage-listings.service.ts:305-314 | Adds the job; nothing happens if its id is taken. |
| ListingsQueue.ListingsQueue.ProcessJob | apps/bptf-manager/src/listings/processors/manage-listings.processor.ts:46-51 | Clears the flag before anything is read. |
| ListingsQueue.ListingsQueue.GetListings | apps/bptf-manager/src/listings/manage-listings.service.ts:655-660 | Reads a batch and changes nothing in the queue. |
| ListingsQueue.ListingsQueue.HandleListings | apps/bptf-manager/src/listings/processors/manage-listings.processor.ts:166-200 | Dequeues exactly the batch after it was handled and returns whether it was full. |
| ListingsQueue.ListingsQueue.CompleteJob | apps/bptf-manager/src/listings/processors/manage-listings.processor.ts:309-319 | The id is free before the hook checks. |
| ListingsQueue.ListingsQueue.OnCompleted | apps/bptf-manager/src/listings/processors/manage-listings.processor.ts:309-319 | Asks for the job again exactly if the batch was full or the flag is set. |
| ListingsQueue.ListingsQueue.PerformAll | apps/bptf-manager/src/listings/manage-listings.service.ts:302-315 | Whatever of these is called in whatever order makes a run of the machine: once all is quiet no request is unserved, the flag is clear and a whole-batch queue is empty. |
| PendingOffers.AlwaysLinked | apps/bot-manager/src/pending/pending.service.ts:187-332 | In every run of events and of polls whose read and write are apart, with or without their lock, every offer of every bot has its relation in the table of its partner. |
| PendingOffers.StepKeepsInv | apps/bot-manager/src/pending/pending.service.ts:187-332 | Each transaction keeps that link, and that entries fit the two parties Steam gave the offer. |
| PendingOffers.OfferEventExactly | apps/bot-manager/src/pending/pending.service.ts:187-209 | An event of an active offer puts it with its bot and its bot with its partner, one of any other takes both out, and no other entry or relation changes. |
| PendingOffers.TableOfExactly | apps/bot-manager/src/pending/pending.service.ts:247-247 | The table that a poll reads holds exactly the entries of its bot. |
| PendingOffers.BetweenEither | apps/bot-manager/src/pending/pending.service.ts:187-209 | An offer may stand between two different parties whichever of them the bot is. |
| PendingOffers.PollEnds | apps/bot-manager/src/pending/pending.service.ts:239-281 | A poll takes the table of its bot when it reads, changes nothing until it writes, and is over after that or when it fails. |
| PendingOffers.LinksNeedSoleOwners | apps/bot-manager/src/pending/pending.service.ts:283-325 | The link needs an offer id to have fixed parties: saving or deleting an offer leaves every offer linked if and only if no other bot has an offer of that id with that partner. |
| PendingOffers.QueryIsFullScan | apps/bot-manager/src/pending/pending.service.ts:130-185 | Following the relations of a partner finds exactly the offers a scan of all bot tables would. |
| PendingOffers.QueryAlwaysFindsAll | apps/bot-manager/src/pending/pending.service.ts:130-332 | So it does over every run from the start, whatever relations dangle. |
| PendingOffers.QueryWithOldRelations | apps/bot-manager/src/pending/pending.service.ts:130-185 | When relations and tables are read at different times, only offers a scan of the tables as read would find are returned, and all of them that were there already when the relations were read. |
| PendingOffers.PollLosesNewOffer | apps/bot-manager/src/pending/pending.service.ts:239-281 | An offer that arrives between the read and the write of a poll leaves the bot table and its relation dangles. |
| PendingOffers.PollKeepsDangling | apps/bot-manager/src/pending/pending.service.ts:239-281 | Of the relations of its bot a poll keeps exactly those of polled offers and those of offers that were not in the table it read, so dangling ones stay. |
| PendingService.SaveCommandsSave | apps/bot-manager/src/pending/pending.service.ts:304-325 | The transaction of saves writes exactly the entries and relations of the offers. |
| PendingService.DeleteCommandsDelete | apps/bot-manager/src/pending/pending.service.ts:283-302 | The transaction of deletes takes out exactly the entries and relations of the offers of one partner. |
| PendingService.SaveOffers | apps/bot-manager/src/pending/pending.service.ts:304-325 | Queues the commands of a save, in order, on the transaction. |
| PendingService.DeleteOffers | apps/bot-manager/src/pending/pending.service.ts:283-302 | Queues the commands of a delete, in order, on the transaction. |
| PendingService.Redis.Exec | apps/bot-manager/src/pending/pending.service.ts:208-208 | Runs the commands of a transaction one after the other. |
| PendingService.HandleOffers | apps/bot-manager/src/pending/pending.service.ts:187-209 | An active offer gets its entry and relation, any other loses both. |
| PendingService.ReadTable | apps/bot-manager/src/pending/pending.service.ts:247-247 | Reads the table of one bot. |
| PendingService.GroupMissing | apps/bot-manager/src/pending/pending.service.ts:253-266 | Groups exactly the offers read before that are no longer polled, by partner. |
| PendingService.GroupsExactly | apps/bot-manager/src/pending/pending.service.ts:253-266 | So a partner has a group if and only if it has offers that are no longer polled, and the group holds exactly those. |
| PendingService.SavePolledOffers | apps/bot-manager/src/pending/pending.service.ts:239-281 | Whatever the tables became since the read, the bot table becomes exactly the polled offers, their relations are written, and the relations of missing offers go. |
| PendingService.GetPendingPartnerOffers | apps/bot-manager/src/pending/pending.service.ts:130-185 | Returns each offer the relations lead to once, skipping dangling ones. |
| PendingService.GetPendingAssets | apps/bot-manager/src/pending/pending.service.ts:76-109 | The two records hold, for every asset, exactly the sums over the offers: for the owner of all of them what is received and what is given, for their partner what is given and what is received. |
| PendingService.OwnerLosesWhatIsGiven | apps/bot-manager/src/pending/pending.service.ts:97-105 | Asked by the owner of all the offers, it loses what is given, counted under the owner, and gains what is received, counted under the partner. |
| PendingService.PartnerGainsWhatIsGiven | apps/bot-manager/src/pending/pending.service.ts:97-105 | Asked by their partner, it is the other way around. |
| PendingService.TotalCountsItems | apps/bot-manager/src/pending/pending.service.ts:82-89 | Of items without amount the total of an asset is how many items of it there are. |
| PendingService.TotalAddsAmounts | apps/bot-manager/src/pending/pending.service.ts:82-89 | Any amount counts as it is, wherever the item stands. |
| PendingService.CountIs | apps/bot-manager/src/pending/pending.service.ts:87-88 | A key that is not in a record counts as nothing, and one that is as its amount. |
| PendingAssets.IndexesAgreeOnAssets | apps/bot-manager/src/pending/pending.service.ts:76-109 | What a partner stands to gain by its relations is the sum of what all bots stand to lose to it by their own tables, asset by asset, and the other way around. |
| PrefabMerge.AtOverlay | apps/item-service/src/schema/schema.utils.ts:27-51 | Laying a source over a target changes what stands at a path exactly as the source says: nothing, nothing there, or its value. |
| PrefabMerge.LastSpeakerWins | apps/item-service/src/schema/schema.utils.ts:3-51 | After a list of sources each path has what the last one that speaks about it says. |
| PrefabMerge.MergingIsLookingUp | apps/item-service/src/schema/schema.utils.ts:3-25 | A definition merged into an empty object has at every path what a depth-first look-up through the prefabs finds: the item, then its prefabs by position, each with all it inherits. |
| PrefabMerge.MostSpecificWins | apps/item-service/src/schema/schema.utils.ts:3-25 | The item decides where it speaks; where it does not, the prefab of the lowest position that speaks or inherits something that does decides, whatever prefabs at later positions say. |
| PrefabMerge.EndsExactlyWithoutCycle | apps/item-service/src/schema/schema.utils.ts:8-20 | Following the prefabs of a definition ends if and only if no prefab it leads to inherits from itself, whatever there is among other prefabs; the results on merging hold for every definition for which it ends. |
| PrefabMerge.SplitJoins | apps/item-service/src/schema/schema.utils.ts:8-9 | The names of prefabs are the parts of the text between its spaces: joined by spaces they are the text again. |
| PrefabMerge.NamesExactly | apps/item-service/src/schema/schema.utils.ts:8-9 | A definition names prefabs if and only if there is a text at `prefab` that is not empty. |
| PrefabMerge.OverlayTwice | apps/item-service/src/schema/schema.utils.ts:27-51 | Laying a source over the result again changes nothing. |
| PrefabMerge.OverlayOneMore | apps/item-service/src/schema/schema.utils.ts:31-48 | The keys of a source can be taken one at a time in any order. |
| PrefabMerge.OverlayThenDelete | apps/item-service/src/schema/schema.utils.ts:24-24 | Deleting `prefab` from the target commutes with overlaying, so deleting it after every source is deleting it once. |
| PrefabMerge.MergedIsClean | apps/item-service/src/schema/schema.utils.ts:31-48 | Merging into an empty object leaves no null anywhere. |
| PrefabMerge.CleanExactly | apps/item-service/src/schema/schema.utils.ts:31-48 | A tree is clean in this sense if and only if no path in it leads to a null. |
| SchemaUtils.InheritKeyValues | apps/item-service/src/schema/schema.utils.ts:27-51 | The recursive loop over a heap of objects makes the target the overlay of the source, writes only the target tree and leaves it a tree that shares nothing with the source. |
| SchemaUtils.InheritKey | apps/item-service/src/schema/schema.utils.ts:31-48 | One key: a null deletes, an object is merged into an object made if missing, anything else replaces. |
| SchemaUtils.EnsureObject | apps/item-service/src/schema/schema.utils.ts:40-42 | Makes an empty object unless there is one, and changes no other key. |
| SchemaUtils.MergeDefinitionPrefab | apps/item-service/src/schema/schema.utils.ts:3-25 | For an item whose prefabs end, merging in place is the left fold of the overlay over the sources, prefabs last to first and then the item, without `prefab`; item and prefabs are what they were. |
| SchemaUtils.MergePrefabs | apps/item-service/src/schema/schema.utils.ts:8-20 | The backward loop merges the sources of all known prefabs in that order and skips unknown names. |
| InventoryUpdates.AfterIsUnionMinusLost | apps/bot-manager/src/inventories/inventories.service.ts:506-527 | An update leaves (old and gained) without lost, by asset id; gained items replace old ones. |
| InventoryUpdates.AnnouncesDifferences | apps/bot-manager/src/inventories/inventories.service.ts:544-572 | The event lists exactly the items that are gone; its gained items are exactly the new ones if and only if everything both gained and lost was there before. |
| InventoryUpdates.RedeliveryChangesNothing | apps/bot-manager/src/inventories/inventories.service.ts:483-576 | The same update again changes nothing, and announces nothing if and only if nothing is both gained and lost. |
| InventoryUpdates.RedeliveryAfterOthers | apps/bot-manager/src/inventories/inventories.service.ts:483-576 | An update delivered again after any others changes nothing if and only if, for each of its ids, the last of the others that is about the id left it as this one does: an item traded away since comes back. |
| InventoryUpdates.RedeliveryAnnounces | apps/bot-manager/src/inventories/inventories.service.ts:544-572 | It announces as lost exactly the ids it loses that the others brought back, and as gained exactly those it gains that the others took away or, if none is about them, it loses itself. |
| InventoryUpdates.TradeAndDetailsCommute | apps/bot-manager/src/inventories/inventories.service.ts:603-635 | The update of a trade and that of its exchange details end the same in either order, if and only if what the details gain and the trade lost the details lose too. |
| InventoryUpdates.TradeAndDetailsAnnounceTheSame | apps/bot-manager/src/inventories/inventories.service.ts:396-481 | If the ids gained are new, both orders announce the same losses and gains altogether. |
| InventoriesService.CachedInventory.UpdateInventory | apps/bot-manager/src/inventories/inventories.service.ts:483-576 | Updates the cached items and queues one event if anything changes hands; an inventory that is not cached is left alone. |
| InventoriesService.HMSet | apps/bot-manager/src/inventories/inventories.service.ts:510-518 | Of two gained items with one id the last is kept. |
| InventoriesService.FindLost | apps/bot-manager/src/inventories/inventories.service.ts:544-549 | The lost items that are cached, in the order given. |
| InventoriesService.FindGained | apps/bot-manager/src/inventories/inventories.service.ts:551-556 | The gained items that are not cached, in the order given. |
| InventoriesService.RecordItem | apps/bot-manager/src/inventories/inventories.service.ts:415-468 | One exchanged item is recorded as lost and gained where it moved or was given back, and changed to where it ends up. |
| InventoriesService.RecordItems | apps/bot-manager/src/inventories/inventories.service.ts:408-469 | The loop over one side of an exchange records its items one after the other. |
| InventoriesService.RecordAllContents | apps/bot-manager/src/inventories/inventories.service.ts:408-469 | The records then hold, per inventory, exactly what some item makes it lose or gain, and what they held before. |
| InventoriesService.PushAppends | apps/bot-manager/src/inventories/inventories.service.ts:415-468 | What is recorded for an inventory comes after what was recorded for it before, and changes no other. |
| InventoriesService.HandleAddInventoryItems | apps/bot-manager/src/inventories/inventories.service.ts:396-481 | Both sides are recorded in the same records, with sender and receiver exchanged. |
| InventoriesService.FinalContents | apps/bot-manager/src/inventories/inventories.service.ts:578-601 | An inventory ends with what it had or gained and did not lose, over all items of both sides of the exchange. |
| InventoriesService.ItemsEndUpRight | apps/bot-manager/src/inventories/inventories.service.ts:396-481 | Every item of either side ends up right: a moved item is gone from its sender and with its receiver under its new id; a returned one is gone from both and back with its sender; an arrival fails exactly if some item makes that inventory lose that very id. |
| InventoriesService.RecordedExactly | apps/bot-manager/src/inventories/inventories.service.ts:415-468 | What is recorded for an inventory, read off the fields of the items: the original of an item that moved or was given back is lost by its sender, what it had become by the receiver if it was given back, and it is gained by its receiver under its new ids or by its sender under its rollback ids. |
| InventoriesService.GivenBackEndsUp | apps/bot-manager/src/inventories/inventories.service.ts:416-446 | An item given back is gone from its sender under its old ids and from its receiver under its new ones, and with its sender under its rollback ids, where it has them, unless some item takes that very asset away. |
| InventoriesService.MovedEndsUp | apps/bot-manager/src/inventories/inventories.service.ts:447-468 | An item that moved is gone from its sender and with its receiver under its new ids, where it has them, unless some item takes that very asset away. |
| Prices.IndexesAlwaysComplete | apps/item-service/src/prices/prices.service.ts:228-339 | Over every sequence of saves, overwrites, deletes and inventory loads the sku index is the inverse image of the price table, and the name, item and owner indexes have every stored price. |
| Prices.TableFollowsOperations | apps/item-service/src/prices/prices.service.ts:131-339 | Over every sequence of operations what is stored under an id is what those about this id make of it: a save its price, a delete nothing, an inventory load the price with its item if it had none and one is found, and else nothing. |
| Prices.SaveKeepsExact | apps/item-service/src/prices/prices.service.ts:228-281 | A save over what is stored leaves the name and item indexes exact. |
| Prices.DeleteLeavesEntries | apps/item-service/src/prices/prices.service.ts:314-339 | A delete leaves the name and item indexes exact if and only if the price had no name and no item: the name key it clears lacks the separator and the item entry is not cleared. |
| Prices.OldOwnerStays | apps/item-service/src/prices/prices.service.ts:233-274 | A save leaves the owner index exact if and only if the asset has not changed its owner. |
| Prices.StaleSave | apps/item-service/src/prices/prices.service.ts:131-213 | A save whose read is out of date keeps the sku index exact if and only if what is stored by then has the sku it read or writes, or none. Saves and the other operations lock different names, so this can happen. |
| Prices.StaleDelete | apps/item-service/src/prices/prices.service.ts:287-339 | A delete whose read is out of date keeps the sku index exact if and only if what is stored by then has the sku it read, or none. |
| Prices.AlwaysComplete | apps/item-service/src/prices/prices.service.ts:131-339 | However saves, deletes and inventory loads interleave between their reads and writes, with the two names they lock, every stored price keeps its name, sku and item entries. |
| Prices.WriteKeepsSkusExactly | apps/item-service/src/prices/prices.service.ts:131-339 | A write of such a run leaves the sku index exact if and only if what is stored by then has a sku the operation read or writes, or none. |
| Prices.SkusExactWhileGuarded | apps/item-service/src/prices/prices.service.ts:131-339 | Over every run in which each write meets this guard the sku index is the inverse image of the price table. |
| Prices.CurrentReadMeetsGuard | apps/item-service/src/prices/prices.service.ts:131-312 | A write whose read is still current meets it. |
| Prices.WriteStores | apps/item-service/src/prices/prices.service.ts:131-339 | With reads and writes apart, too, a write stores its price, takes out the price read, or puts the item found into the price read. |
| Prices.OperationEnds | apps/item-service/src/prices/prices.service.ts:131-312 | An operation that has written, or that fails, is over, and its lock is free. |
| Prices.OneLockIsEnough | apps/item-service/src/prices/prices.service.ts:131-312 | If all operations locked the same name, as saves do among themselves, every write of every run would meet its guard. |
| Prices.StaleDeleteLeavesEntry | apps/item-service/src/prices/prices.service.ts:287-312 | A run from the start in which a price is saved while a delete is under way: the table ends empty and the entry of the new sku stays. |
| Prices.CandidatesComplete | apps/item-service/src/prices/prices.service.ts:391-420 | A stored price that meets a query is among the ids it looks up, and of an asset query, or of a sku query while the sku index is exact, the stored ones are no others. |
| Prices.SearchableFromTheStart | apps/item-service/src/prices/prices.service.ts:131-420 | Over every interleaving since there was no price a stored price is among the ids of every query that it meets, and of a sku query the stored ones are no others while each write met its guard. |
| PricesService.SearchFinds | apps/item-service/src/prices/prices.service.ts:391-489 | A search returns every stored price that meets a query, and its matches point at it; those of asset queries, and of sku queries while that index is exact, point at nothing else. |
| PricesService.PricesService.SearchPrices | apps/item-service/src/prices/prices.service.ts:391-489 | Every price found is returned once, and the positions given for a query are those of exactly its stored candidates. |
| PricesService.PricesService.Lookup | apps/item-service/src/prices/prices.service.ts:391-452 | The ids of each query, and all of them once. |
| PricesService.PricesService.Fetch | apps/item-service/src/prices/prices.service.ts:455-473 | The stored prices of the ids, each at the index noted for it. |
| PricesService.Indexes | apps/item-service/src/prices/prices.service.ts:475-486 | The positions of the ids that were found. |
| PricesService.PricesService.SavePriceMulti | apps/item-service/src/prices/prices.service.ts:228-281 | Takes out the entries of the old price and puts in those of the new one; owner entries of the old price stay. |
| PricesService.PricesService.DeletePriceMulti | apps/item-service/src/prices/prices.service.ts:314-339 | Takes out the price, its sku entry and its owner entry only. |
| PricesService.PricesService.SavePrice | apps/item-service/src/prices/prices.service.ts:131-213 | Saves over what is stored. |
| PricesService.PricesService.DeletePrice | apps/item-service/src/prices/prices.service.ts:287-312 | Deletes what is stored, if anything. |
| PricesService.PricesService.CheckPricedAsset | apps/item-service/src/prices/prices.service.ts:536-609 | A priced asset without item gets the item of the inventory or is deleted. |
| RefreshPoint.PointNeverDecreases | apps/bptf-manager/src/inventories/inventories.service.ts:54-91 | While set, the refresh point never decreases, and it goes only when a job is done or it is dequeued. |
| RefreshPoint.DoneMeansRequested | apps/bptf-manager/src/inventories/inventories.service.ts:143-182 | When a job clears the point, a refresh was requested at or after it and after every request still owed, those raised while the job ran included, and the job saw a snapshot newer than the one it started from. |
| RefreshPoint.RunsKeepInv | apps/bptf-manager/src/inventories/inventories.service.ts:46-182 | Over any run of requests, jobs, snapshots and dequeues the point covers every request owed, and a snapshot newer than the one a job started from was taken after the job learnt of that. |
| RefreshPoint.NoRequestIsDropped | apps/bptf-manager/src/inventories/inventories.service.ts:54-182 | Every accepted request is owed, was withdrawn by a dequeue, or was served by a refresh requested at or after it. |
| RefreshPoint.RefusedExactly | apps/bptf-manager/src/inventories/inventories.service.ts:63-66 | A request is refused if and only if the snapshot on record was taken at or after its time; then nothing changes, and otherwise it is owed and the point is at or after it. |
| RefreshPoint.AcceptedExactly | apps/bptf-manager/src/inventories/inventories.service.ts:63-73 | Every request of a run made while the snapshot on record was older counts as accepted. |
| RefreshPoint.RecordIsOfRequest | apps/bptf-manager/src/inventories/inventories.service.ts:225-267 | What a job puts on record is when it asked and the snapshot it was answered with, however long either takes, and the next job starts from that snapshot. |
| RefreshPoint.JobsCanGo | apps/bptf-manager/src/inventories/inventories.service.ts:130-141 | Any job there is can start over and can be removed, which frees its id. |
| RefreshPoint.SecondChainStartsExactly | apps/bptf-manager/src/inventories/inventories.service.ts:94-125 | With one chain, a second one starts if and only if a first job is added beside one that goes on while the id of first jobs is free, or a job that had ended starts over beside one. |
| RefreshPoint.OneChainEndsExactly | apps/bptf-manager/src/inventories/inventories.service.ts:74-89 | A step ends the state of one chain if and only if it is a request that finds no point and no enqueue job while a job goes on, or a job that had ended and starts over beside another. |
| RefreshPoint.OneChainStays | apps/bptf-manager/src/inventories/inventories.service.ts:74-89 | Over every run without such a step there is one chain of jobs at a time. |
| RefreshPoint.StartingBesideLeadsToTwo | apps/bptf-manager/src/inventories/inventories.service.ts:74-125 | After any such step, whichever job is there, some run without another one leads to two chains. |
| RefreshPoint.StrandedExactly | apps/bptf-manager/src/inventories/inventories.service.ts:72-141 | A step leaves a point that nobody works towards if and only if it is a request that finds no point while the enqueue job is about to complete, the adding of a job whose id is still that of one that ended, or the removal of the only job. |
| RefreshPoint.MannedStays | apps/bptf-manager/src/inventories/inventories.service.ts:72-141 | Over every run without such a step each point has a job that goes on or is about to be added. |
| RefreshPoint.RequestIsStranded | apps/bptf-manager/src/inventories/processors/enqueue.processor.ts:40-50 | A run from the start in which a refresh is withdrawn and requested again between the enqueue job finding no point and completing: the request is owed and no job is there. |
| RefreshPoint.DoneMeansNewSnapshot | apps/bptf-manager/src/inventories/inventories.service.ts:160-170 | The snapshot a refresh ends with was taken at or after the point, and after all requests it serves, if the record read was not made after the job learnt of the snapshot it started from. |
| RefreshPoint.InOrderDoneMeansNew | apps/bptf-manager/src/inventories/inventories.service.ts:143-182 | Over every run with one chain, in which each job reads the record before its own request is on it and does not start over after that, a refresh that ends has seen a snapshot taken at or after the point. |
| RefreshPoint.EndsTooEarlyExactly | apps/bptf-manager/src/inventories/inventories.service.ts:143-182 | In every reachable state, a job that has read the record can end with a snapshot from before the point, by any run in which it neither reads again nor starts over, if and only if the request on record is after the snapshot it has, or the present one while it has none, and that is newer than the one it started from (and, once its answer is stored, the point can still be brought between the two). |
| RefreshPoint.UnreadCanEndTooEarly | apps/bptf-manager/src/inventories/processors/inventories.processor.ts:40-47 | A job that has neither read the record nor asked can always do so, without any other job: by reading after its own request is on record. |
| RefreshPoint.LateReadEndsTooEarly | apps/bptf-manager/src/inventories/inventories.service.ts:160-170 | A run from the start, with one chain, in which a job reads the record after it stored its own request and ends with a snapshot from before the point. |
| RefreshPoint.RetryEndsTooEarly | apps/bptf-manager/src/inventories/inventories.service.ts:160-170 | The same for a job that starts over after it stored its request. |
| RefreshPoint.TwoChainsEndTooEarly | apps/bptf-manager/src/inventories/inventories.service.ts:130-141 | The same for two chains: a refresh is withdrawn while the second job of its chain is active and requested again. |
| RefreshService.InventoriesService.ScheduleRefresh | apps/bptf-manager/src/inventories/inventories.service.ts:46-92 | Raises the point unless the snapshot is new enough, and starts a chain if there was no point or no job. |
| RefreshService.InventoriesService.DequeueRefresh | apps/bptf-manager/src/inventories/inventories.service.ts:130-141 | Clears the point; jobs under way find it missing. |
| RefreshService.InventoriesService.EnqueueRefresh | apps/bptf-manager/src/inventories/inventories.service.ts:113-125 | Adds a job under its number of attempts, which does nothing if that id is taken. |
| RefreshService.InventoriesService.OnInventoryStatus | apps/bptf-manager/src/inventories/processors/enqueue.processor.ts:40-43 | Takes the status the first job of a chain will start from. |
| RefreshService.InventoriesService.OnRefreshPoint | apps/bptf-manager/src/inventories/processors/enqueue.processor.ts:46-46 | Reads the point without the lock and ends without one. |
| RefreshService.InventoriesService.StartChain | apps/bptf-manager/src/inventories/processors/enqueue.processor.ts:47-50 | Adds the first job of a chain, if its id is free, whatever became of the point. |
| RefreshService.InventoriesService.ContinueRefresh | apps/bptf-manager/src/inventories/inventories.service.ts:143-182 | Stops if cancelled, clears the point if done, and otherwise queues the next job with the snapshot just seen, unless its id is taken; its own id stays taken until it completes. |
| RefreshService.InventoriesService.SaveInventory | apps/bptf-manager/src/inventories/inventories.service.ts:225-267 | Records the request and the snapshot it answered with. |
| RefreshService.InventoriesService.PerformAll | apps/bptf-manager/src/inventories/inventories.service.ts:46-182 | Whatever of these is called in whatever order makes a run of the machine: every accepted request is covered by the point, was withdrawn, or has a refresh requested at or after it on record. |
| RateLimits.LimiterKeepsWindow | apps/bptf-manager/src/rate-limits/rate-limits.service.ts:36-52 | Starts spaced as configured never put more requests into a closed window than allowed, even if requests arrive up to (not including) 1000 ms per request late. |
| RateLimits.OptionsOfLimit | apps/bptf-manager/src/rate-limits/rate-limits.service.ts:36-52 | One request at a time, as many in reserve as the window allows, refilled once a window, and the least whole spacing that covers the window and a second a request. |
| RateLimits.SafeExactlyBelow | apps/bptf-manager/src/rate-limits/rate-limits.service.ts:36-52 | For any spacing, the delays that keep every window are exactly those below requests times spacing minus window. |
| RateLimits.ExtraSecondIsNeeded | apps/bptf-manager/src/rate-limits/rate-limits.service.ts:47-50 | When the window divides evenly that bound is exact, and without the extra second requests that arrive at once already exceed the limit. |
| Backoff.RedisSimulatesLocal | apps/bot/src/inventories/inventory-rate-limit.ts:44-84 | Over any turns in the slot, each waiting out what is left and none an hour after the last failure, the Redis backoff is at the level of a local one and leaves the same wait at every later time. |
| Backoff.TurnsAgree | apps/bot/src/inventories/inventories.service.ts:194-228 | One turn keeps both at the same level and wait. |
| Backoff.ExpiryParts | apps/bot/src/inventories/inventory-rate-limit.ts:61-84 | Once the counter has expired the next update brings the two together again if and only if it is a success after a single failure. |
| Backoff.NewOnesAgree | apps/bot/src/inventories/inventory-rate-limit.ts:44-66 | Two new backoffs leave no wait, and leave the same wait after any turns. |
| Backoff.CounterLivesAnHour | apps/bot/src/inventories/inventory-rate-limit.ts:61-73 | The counter is gone an hour after the last failure, and not before. |
| Backoff.CounterOutlivesBlock | apps/bot/src/inventories/inventory-rate-limit.ts:61-73 | So it outlives the block that the failure set, and the next failure counts on. |
| Backoff.SuccessStepsDown | apps/bot/src/inventories/inventory-rate-limit.ts:75-82 | A success takes one level off, if there is one, and blocks for a positive gap only. |
| Backoff.WaitsGrow | apps/bot/src/inventories/inventory-rate-limit.ts:27-30 | Consecutive failures never shorten the wait, which stays between 30 seconds and three minutes and grows strictly until then. |
| Backoff.BackoffDelayIs | apps/bot/src/inventories/inventory-rate-limit.ts:27-30 | The waits are 30, 60, 120 and then 180 seconds. |
| Backoff.JitterOnlyShortens | libs/utils/src/lib/backoff.ts:1-18 | Jitter only shortens a wait, by at most its share, and no strategy waits longer than the cap. |
| Backoff.JitterTakesItsShare | libs/utils/src/lib/backoff.ts:1-18 | Exactly, the shorter of wait and cap loses the share of it that jitter times a random number is, and is rounded to the nearest whole number. |
| Backoff.StrategiesGrow | libs/utils/src/lib/backoff.ts:8-14 | From one attempt to the next a wait doubles, grows by the delay, or stays the delay; the first is the delay. |
| Backoff.LocalBackoff.Increase | apps/bot/src/inventories/inventory-rate-limit.ts:50-53 | One level more, and its wait from now. |
| Backoff.LocalBackoff.Decrease | apps/bot/src/inventories/inventory-rate-limit.ts:54-57 | One level less, not below none, and the gap from now. |
| Backoff.RedisBackoff.Increase | apps/bot/src/inventories/inventory-rate-limit.ts:70-74 | Counts up, sets the hour to live and blocks for the wait of the level, at three times. |
| Backoff.RedisBackoff.Decrease | apps/bot/src/inventories/inventory-rate-limit.ts:75-82 | Counts down, drops a counter that is used up, and blocks for a positive gap only. |
| GarbageCollection.RemovedExactlyWhenLongGone | apps/bot/src/trades/gc.service.ts:28-98 | After any run of polls and other changes, a full poll removes an offer it does not list if and only if the offer is tracked, its last published state is completed, and a poll at least the remember time ago marked it as absent and none listed it or removed its data since. |
| GarbageCollection.RemovedTogether | apps/bot/src/trades/gc.service.ts:67-98 | Data goes only in a full poll that the offer is absent from; its four entries go together, and nothing of any other offer. |
| GarbageCollection.OnlyCompletedAreForgotten | apps/bot/src/trades/helpers.ts:4-10 | Offers last published as active, awaiting confirmation or in escrow are neither removed nor marked by a poll that does not list them; all others are marked or removed, also those without any published state. |
| GarbageCollection.ListedIsKept | apps/bot/src/trades/gc.service.ts:33-54 | An offer in the list of the poll of every kind it is tracked as is kept as it is, without a mark. |
| GarbageCollection.OtherChanges | apps/bot/src/trades/gc.service.ts:33-66 | Between polls offers become tracked as ours or theirs and states of them are published; a mark stays through that. |
| GarbageCollection.RunsKeepInv | apps/bot/src/trades/gc.service.ts:28-98 | Over any run of full polls and other changes an offer is marked missing exactly since a poll that marked it absent, with none listing it since, and every offer that is gone since a poll is marked since then or before. |
| GarbageCollection.ReappearingRestarts | apps/bot/src/trades/gc.service.ts:33-43 | An offer that is listed again is not removed and is missing since no poll up to then. |
| GarbageCollection.GarbageCollector.Cleanup | apps/bot/src/trades/gc.service.ts:28-98 | The loops over the poll data, which may meet an offer twice, leave what one check of all absent offers leaves, and hand the data on exactly if more than the marks of listed offers changed. |
| GarbageCollection.GarbageCollector.CheckOffer | apps/bot/src/trades/gc.service.ts:59-91 | Marks, keeps or removes one offer and no other. |

## Left out

- HTTP, RabbitMQ, Steam, file and S3 engines, configuration, validation, logging and metrics.
- Storage: coalesced reads, the outcome a caller's promise settles with, and the drain at shutdown.
- Relay: how a leader is elected; any process may believe to be leader at any time.
- WriteCoalescing.NeverStuck: assumes a write concurrency above zero, without which fastq starts nothing.
- ListingsRefresh.RefreshCopiesExactlyWhatWasSaved: creates, updates and deletes share one limiter slot; archived deletes do not touch temp hashes and are only modelled on the current listings; temp hashes do not expire. Reading the tracked keys and asking which exist is one step, and so are the check and the copy at the end of a refresh.
- Error classification and duplicate detection of create answers, and the bookkeeping of limits.
- ManageListings.PlanListings: the check that the agent runs, priorities in the queues, and the jobs created afterwards; maps from hash to listing are kept as their sets of hashes.
- ListingPlan.PlanningIsAFixpoint: hashes of objects are compared by what is hashed, error messages are left out.
- BatchSelection.GetListingsToCreate: the sorted set is kept as its members in rank order, without scores, and the copy of it under another key is a local value.
- WakeUp.NoWakeUpIsLost: create, update and plan jobs also check that the agent is registered, which is taken for granted. Jobs are never given up and hooks do not fail.
- WakeUp.CanAlwaysFinish: not stated for the create queue, which can only empty as slots become free.
- WakeUp.WorkLeavesHandled: work queued again while its batch is handled leaves the queue with the batch, as it does in the code.
- DesiredListings.SaveKeepsProgress: priorities and the time of the update are not kept.
- PendingService.SavePolledOffers: the skip of polls older than the bot's last heartbeat and key expiry.
- SchemaUtils.MergeDefinitionPrefab: items that lead to a cycle of prefabs, for which the code does not end, targets that hold nulls, which the call site never passes, and a `prefab` that is not a string.
- InventoriesService.RecordItems: items stand for themselves by asset id, context, app and the rest as one text.
- InventoriesService.CachedInventory.UpdateInventory: the lock makes reading and writing one step.
- Prices.IndexesAlwaysComplete: every operation is one step here; `AlwaysComplete` and `SkusExactWhileGuarded` are the theorems for reads and writes apart. The loop over the priced assets of an inventory is one step per asset. An item is given by its sku and its encoding; the set of all priced assets, kept like the owner index, is left out.
- PricesService.SearchFinds: the indexes and the table are read in one state.
- RefreshPoint.NoRequestIsDropped: safety only; a chain of jobs that died is not revived by itself. A request reads the point and the jobs and adds one in one step, and any job may be removed. Neither the point nor the record expires.
- RateLimits.LimiterKeepsWindow: that the limiter spaces starts as configured is taken from the library; the reservoir is not needed for the bound.
- GarbageCollection.RemovedExactlyWhenLongGone: polls come at times that do not decrease.
- Backoff.RedisSimulatesLocal: a slot does not expire while it is held.
- Subscriber pausing, idempotency keys, escrow, friends and profiles.
