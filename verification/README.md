# Verification of the NestJS boilerplate's stateful core

A Dafny model of the parts of the repository that carry state or recursion, with proofs about them.
`dafny verify dfyconfig.toml` checks the whole project.

## What is modelled

**Objects on a heap** (`ObjectGraph`, `ObjectClone`, `FieldReplacement`, `Masks`). JavaScript objects and arrays are
`Node` objects with mutable `slots`, shared freely; the only demand is that the data is acyclic, because
`replaceFields` and `checkFieldsExistence` do not end on a cycle. Results are stated twice: on snapshots of the heap,
node by node, and on the tree a node unfolds to. The masking call is proved to return the masked tree of its input.
It leaves the input itself alone whenever the structured clone accepts it; when it does not (a function or a symbol is
within reach), the fallback of `cloneObject` keeps the arrays of the original, and the masking call then writes into
the objects behind them. The model gives the exact set of nodes written (those reached through an array of an object
that cannot be cloned and that is itself reached through objects only), the exact condition under which nothing
changes, and a concrete input that is changed.

**The array printer** (`ArrayPrinter`) on any finite graph of arrays, cycles included, and **the stream reader**
(`StreamBuffer`), which fills a fixed array chunk by chunk.

**User requests** (`UserLifecycle`, `UserRuns`, `UserUseCases`). Create, delete and update are program counters over
two tables; every store call, the reads before answering included, is one step, any number of requests interleave, and
each may crash between any two steps. The order of the writes keeps referential and audit invariants in every reachable
state. A live user is served while it has a live preference or a request is still about to insert one or to delete the
user. Over any run every live user is served at every moment if and only if no request crashes that a live user alone
hangs on; in particular runs without crashes serve everyone. A create that crashes between its two inserts, or a delete
that crashes between its two soft-deletes, leaves a user that no later request can repair. `UserTables` has the use
cases as they are written, and one of its calls is proved to be a lone run of the interleaved machine.

**PATCH** (`UserStrategy`, `UserPatch`, `UserPatchRuns`). `mustUpdate` is characterised by key paths and compared with the write it
guards. It says no to a needed write exactly when some leaf of the input lies below something missing or falsy in the
entity and, besides, no leaf it can get to differs; the two rows of a user never get into that situation. The PATCH of
the use case is proved to be what the interleaved machine does with a lone update (`UserPatchRuns`).

**Messages** (`MessageQueue`, `QueueConsumer`). Queue, handler and dead-letter store as a machine of interleaved
deliveries in which any call can fail, redelivery can come at any time and the consumer can be switched off and on.
The handler and the consumer are classes, and each of their callbacks is proved to be a run of that machine. A
disabled consumer handles nothing, but a message it refuses and that is then given to its processing-error callback
goes to the store and out of the queue: "disabled" parks such messages rather than leaving them queued.

**Subscriptions** (`SubscriptionEntity`, `SubscriptionService`, `WebSocketServer`, `CacheKeys`). Documents with a
cache in front and rooms beside them, each call one atomic step. `save` spreads nested parts of its payload over the
`subscriptionId` it was given, so a client's reconnect message can name another subscription; cache and rooms stay
right exactly when it does not, and every nested id of another subscription breaks them. A `createdAt` text that is no
date becomes an invalid date, which the document store keeps as the instant 0.

**Webhooks** (`WebhookService`, `WebhookPulls`), as a service called sequentially and as pulls that interleave step by
step: a hook fires at most once for each pull that listed it, and twice exactly when two pulls, which then overlap, both
read it while it was stored and readable and both went through their loop when it was due.
**Page arithmetic** (`Pagination`): page 0 is not paginated by the code, so pages counted from 0 give the rows only when one
page holds them all.

Stores are maps and sets; clocks, generated ids, hashes, and the success or failure of calls to Postgres, Mongo, Redis
and SQS are parameters.

## Model

| member | source | states |
|---|---|---|
| `ObjectGraph.ReachIsLeastClosed` | src/modules/common/utils/objectRecursiveFunctions.util.ts:65-84 | Reachability, on which every masking result rests, is the least set that holds the start and follows all references, whatever the rank used to define it |
| `FieldReplacement.ApplyFieldReplacement` | src/modules/common/utils/objectRecursiveFunctions.util.ts:55-63 | Exactly one object changes, and in it exactly the listed slots that held something, absent and undefined ones staying as they are |
| `FieldReplacement.ReplaceFields` | src/modules/common/utils/objectRecursiveFunctions.util.ts:65-87 | On any acyclic heap with sharing it terminates, masks every object reachable from the argument once and for all, and touches no other node; null and undefined give null |
| `FieldReplacement.ReplaceInItems` | src/modules/common/utils/objectRecursiveFunctions.util.ts:73-79 | An array's items are masked one after the other; what is masked in the end is everything reachable from the array, on top of what was masked before |
| `FieldReplacement.ReachAfterMask` | src/modules/common/utils/objectRecursiveFunctions.util.ts:69-86 | Replacing slots in a closed part of the heap cuts no path to a node outside it, so the later recursive calls still reach everything |
| `FieldReplacement.MaskUnion` | src/modules/common/utils/objectRecursiveFunctions.util.ts:69-86 | Masking what a second node reaches after a closed part was masked is masking the union once |
| `FieldReplacement.MaskHeapUnfolds` | src/modules/common/utils/objectRecursiveFunctions.util.ts:65-87 | In-place replacement over shared nodes reads, as a tree, as the pure recursive mask of the tree before |
| `FieldReplacement.CheckFieldsExistence` | src/modules/common/utils/objectRecursiveFunctions.util.ts:29-53 | True if and only if some object in the unfolded tree owns a listed name |
| `FieldReplacement.CheckSomeItem` | src/modules/common/utils/objectRecursiveFunctions.util.ts:41-44 | The callback over an array's items says whether the array's tree owns a listed name |
| `FieldReplacement.HasFieldIffOwned` | src/modules/common/utils/objectRecursiveFunctions.util.ts:23-53 | The check answers for exactly the nodes within reach: true if and only if one of them owns a listed name |
| `FieldReplacement.MaskWithoutField` | src/modules/common/utils/masks.util.ts:14-20 | When the check is false the mask is the identity, so the fast path refines the full one |
| `FieldReplacement.MaskTreeTwice` | src/modules/common/utils/objectRecursiveFunctions.util.ts:65-87 | Masking by one list and then by another is masking once by both |
| `FieldReplacement.MaskTreeBySet` | src/modules/common/utils/objectRecursiveFunctions.util.ts:55-63 | Order and repetition of the listed names do not matter |
| `ObjectClone.Collect` | src/modules/common/utils/objectRecursiveFunctions.util.ts:5-6 | The structured clone's traversal visits exactly the reachable nodes and refuses if and only if one of them holds a function or symbol |
| `ObjectClone.StructuredClone` | src/modules/common/utils/objectRecursiveFunctions.util.ts:5-6 | The clone is a fresh isomorphic copy of all reachable nodes, sharing included, and the original is unchanged |
| `ObjectClone.CopyUnfolds` | src/modules/common/utils/objectRecursiveFunctions.util.ts:5-6 | Such a copy unfolds to the tree of the original |
| `ObjectClone.CopyReaches` | src/modules/common/utils/objectRecursiveFunctions.util.ts:5-6 | Nothing of the original can be reached from such a copy |
| `ObjectClone.CloneObject` | src/modules/common/utils/objectRecursiveFunctions.util.ts:4-21 | The clone has the same slots as a tree, the original heap is unchanged, and of the original it reaches exactly the nodes kept behind arrays by the fallback, none after a structured clone |
| `ObjectClone.CloneSlot` | src/modules/common/utils/objectRecursiveFunctions.util.ts:10-17 | In the fallback an object in a slot is cloned and anything else, arrays included, is taken over as it is |
| `ObjectClone.KeptIffBehind` | src/modules/common/utils/objectRecursiveFunctions.util.ts:4-21 | The original nodes a clone shares are exactly those reached through an array of some object that cannot be cloned and that is reached through objects only |
| `ObjectClone.FallbackCloneOf` | src/modules/common/utils/objectRecursiveFunctions.util.ts:8-19 | The object the fallback fills is a clone: same tree below its slots, sharing only what its slots lend |
| `Masks.MaskObject` | src/modules/common/utils/masks.util.ts:14-20 | Check, clone, replace: the result reads as the masked input; the input's nodes change in exactly the ones a fallback clone kept; without a listed field the input itself is returned and nothing changes; with one the result is new |
| `Masks.MaskObjectSensitiveData` | src/modules/common/utils/masks.util.ts:9-21 | The same, clause by clause, for the five sensitive names; a value that is no object gives null and changes nothing |
| `Masks.MaskHides` | src/modules/common/utils/masks.util.ts:6-17 | Masking a tree puts "***" under password, newPassword, cvv, pin and token at every depth, unless nothing was there, and changes nothing else |
| `Masks.OriginalUntouchedIff` | src/modules/common/utils/masks.util.ts:16-17 | The input survives a masking call if and only if no node behind an array of an uncloneable object, reached through objects only, has a listed slot that still holds something other than the mask; so it always survives when the structured clone accepts it |
| `Masks.KeptArrayIsMasked` | src/modules/common/utils/masks.util.ts:16-17 | A call that does write to its input: an object with a function beside an array of objects with a pin |
| `Masks.ProducerThenInterceptor` | src/modules/events/queue/producers/AbstractProducer.producer.ts:74-84 | Masking by the producer's four names and then by the interceptor's five is interceptor masking alone |
| `ArrayPrinter.ParseArrayToString` | src/modules/common/utils/helpers/DataParser.helper.ts:36-46 | On every finite graph of arrays it terminates and returns the one text that printing allows: the items in order with a single comma before each but the first, "undefined" or nothing for an undefined item, brackets around a nested array, and the words of the marker for one seen before |
| `ArrayPrinter.PrintsIff` | src/modules/common/utils/helpers/DataParser.helper.ts:38-44 | The visit gives the only text and the only set of seen arrays that fit that description, which is stated by the offsets of the items in the text |
| `ArrayPrinter.Visitor.VisitNode` | src/modules/common/utils/helpers/DataParser.helper.ts:38-44 | One call of the closure returns the text and leaves the seen set of the specified visit |
| `ArrayPrinter.ExpandsReachableOnce` | src/modules/common/utils/helpers/DataParser.helper.ts:37-44 | The arrays expanded are exactly the reachable ones, each expanded once, cycles included |
| `ArrayPrinter.MarkersCountRepeats` | src/modules/common/utils/helpers/DataParser.helper.ts:39-41 | Every reference is expanded or printed as the marker, so the marker is printed as often as references exceed arrays |
| `ArrayPrinter.VisitIsPlain` | src/modules/common/utils/helpers/DataParser.helper.ts:38-44 | From any seen set, a visit of acyclic nesting prints no marker if and only if no array occurs twice or was seen before, and then prints plainly |
| `ArrayPrinter.UnsharedPrintsPlainly` | src/modules/common/utils/helpers/DataParser.helper.ts:36-46 | On acyclic nesting the marker appears if and only if some array occurs twice; otherwise the text is that of the plain recursive printer |
| `ArrayPrinter.PlainMeans` | src/modules/common/utils/helpers/DataParser.helper.ts:43-43 | The plain printer's text of an array is its items with single commas between them, nested arrays in brackets |
| `StreamBuffer.ReadableStreamToBuffer` | src/modules/common/utils/helpers/DataParser.helper.ts:111-131 | The buffer is exactly the concatenation of all chunks in arrival order, every copy in bounds, and the stream is read to its end |
| `StreamBuffer.FlattenPrefix` | src/modules/common/utils/helpers/DataParser.helper.ts:123-128 | The summed length of the first chunks never exceeds the total, so each copy fits |
| `UserLifecycle.ApplyKeepsInv` | src/modules/app/user/usecases/DeleteUser.usecase.ts:25-36 | Every step of every request, start and crash keeps the tables unique and consistent, live preferences owned by live users, deletions stamped, and what each in-flight request relies on |
| `UserLifecycle.ExecKeepsInv` | src/modules/app/user/usecases/CreateUser.usecase.ts:27-39 | So does every interleaved run |
| `UserLifecycle.InsertPreferenceKeepsInv` | src/modules/app/user/usecases/CreateUser.usecase.ts:37-39 | The preference insert lands on a user that is still live, because delete refuses to start without a live preference |
| `UserLifecycle.FlagUserKeepsInv` | src/modules/app/user/repositories/user/User.repository.ts:85-88 | Flagging the user as deleted comes after its preference was flagged and its stamp written, so neither invariant breaks under interleaving |
| `UserLifecycle.SetEmailKeepsInv` | src/modules/app/user/services/User.service.ts:78-78 | A changed e-mail that the unique column accepts keeps every invariant and every other request's expectations |
| `UserRuns.RunsAreConsistent` | src/modules/app/user/usecases/DeleteUser.usecase.ts:25-36 | In every reachable state each live preference belongs to an existing live user, each soft-deleted user has its own id as deletedBy, e-mails are unique and no user has two preferences |
| `UserRuns.RejectedLeavesNothing` | src/modules/app/user/usecases/CreateUser.usecase.ts:27-39 | A request that was turned down, a create that lost an e-mail race among them, left no user and no preference |
| `UserRuns.InsertRefusedIff` | src/modules/app/user/services/User.service.ts:51-56 | At its insert a create is refused if and only if some row, soft-deleted or not, has that very e-mail; otherwise exactly the new row is added |
| `UserRuns.EmailWriteRefusedIff` | src/modules/app/user/services/User.service.ts:78-78 | The write of a changed e-mail is refused if and only if another row has it; otherwise exactly that column changes |
| `UserRuns.ReadBackFailsIff` | src/modules/app/user/usecases/UpdateUser.usecase.ts:36-44 | A read-back at the end of a create or within an update ends it in an error if and only if the row it looks for is gone or soft-deleted by then |
| `UserRuns.SoftDeleteIsForGood` | src/modules/app/user/repositories/user/User.repository.ts:81-97 | From any state, no run removes a row, clears a soft-delete or moves a preference to another user |
| `UserRuns.CrashServesIff` | src/modules/app/user/usecases/DeleteUser.usecase.ts:25-36 | In a reachable state where every live user is served, the crash of a request leaves them so if and only if every live user whose preference it was about to insert, or whose deletion it was about to finish, has another such request |
| `UserRuns.RunsServeIff` | src/modules/app/user/usecases/CreateUser.usecase.ts:35-39 | Over any run every live user is served at every moment if and only if each crash in it is safe in that sense |
| `UserRuns.CrashFreeRunsServeAll` | src/modules/app/user/usecases/CreateUser.usecase.ts:35-39 | The case of a run without crashes, of which it is a corollary |
| `UserRuns.StrandedForGood` | src/modules/app/user/usecases/DeleteUser.usecase.ts:26-30 | A live user without a preference and without such a request stays so over every further run |
| `UserRuns.CrashedCreateStrands` | src/modules/app/user/usecases/CreateUser.usecase.ts:35-39 | From every consistent state, a create that crashes between its two inserts leads to that state |
| `UserRuns.CrashedDeleteStrands` | src/modules/app/user/usecases/DeleteUser.usecase.ts:30-36 | From every consistent state, so does a permitted delete that crashes after its preference was soft-deleted, unless another request has the insert of the user's preference or any write of the user's deletion still ahead of it |
| `UserUseCases.AloneIsExec` | src/modules/app/user/usecases/DeleteUser.usecase.ts:19-43 | One call run to its end alone is a run of the interleaved machine |
| `UserUseCases.UserTables.CreateUser` | src/modules/app/user/usecases/CreateUser.usecase.ts:21-50 | Succeeds if and only if the agent has an id, the password is not empty and no row at all, soft-deleted or not, has the same e-mail; then both rows are new and read back as the answer, else nothing changes; it is a lone run of the machine |
| `UserUseCases.UserTables.DeleteOne` | src/modules/app/user/repositories/user/User.repository.ts:81-97 | Stamp and flag are both written to the one row, and it answers whether the row exists |
| `UserUseCases.UserTables.DeleteUser` | src/modules/app/user/usecases/DeleteUser.usecase.ts:19-43 | Succeeds if and only if the user is live, has a live preference, and the agent's id and username are the user's id and e-mail; then exactly those two rows are flagged and the user stamped, else nothing changes; it is a lone run of the machine |
| `UserStrategy.MustUpdate` | src/modules/app/user/strategies/User.strategy.ts:19-43 | True if and only if some key path of the input ends in a defined leaf, is truthy all the way in the entity, and ends there in another value |
| `UserStrategy.DiffersByKey` | src/modules/app/user/strategies/User.strategy.ts:25-40 | That path condition can be decided key by key, nested objects by the same condition |
| `UserStrategy.OverlayAt` | src/modules/app/user/services/User.service.ts:65-78 | Writing an input over an entity gives every leaf of the input at its path |
| `UserStrategy.OverlayFixedIff` | src/modules/app/user/services/User.service.ts:65-78 | Such a write changes nothing if and only if the entity already holds every leaf of the input |
| `UserStrategy.GateIsExact` | src/modules/app/user/strategies/User.strategy.ts:19-43 | The write changes nothing if and only if mustUpdate is false and no leaf of the input lies below something falsy in the entity |
| `UserStrategy.OverlaySettles` | src/modules/app/user/strategies/User.strategy.ts:19-43 | After the write, mustUpdate is false for the same input, at every depth and for every entity |
| `UserStrategy.MissingObjectIsBlocked` | src/modules/app/user/strategies/User.strategy.ts:20-21 | A write that mustUpdate misses: a nested object over an entity without it |
| `UserPatch.UserGate` | src/modules/app/user/usecases/UpdateUser.usecase.ts:32-32 | On a user's attributes the comparison is true if and only if a sent field differs from its column, a password was sent, or the sent preference differs |
| `UserPatch.PreferenceGate` | src/modules/app/user/usecases/UpdateUser.usecase.ts:33-34 | On a preference's attributes the comparison is true if and only if a sent field differs from its column |
| `UserPatch.GateLosesNothing` | src/modules/app/user/usecases/UpdateUser.usecase.ts:32-39 | The gates keep back only writes that would leave the rows as they are |
| `UserPatch.RowsOverlay` | src/modules/app/user/services/User.service.ts:65-78 | Without a password, the attributes of the two rows after the writes are the overlay of the input over the attributes before, the write for which the comparison is exact |
| `UserPatch.RowsNeverBlocked` | src/modules/app/user/usecases/UpdateUser.usecase.ts:27-34 | No input can meet the comparison's gap on these two rows, so there its answer is exactly whether the overlay changes anything |
| `UserPatch.RepeatedPatch` | src/modules/app/user/usecases/UpdateUser.usecase.ts:27-39 | Once a request was written, the same request writes the user row again if and only if it carries a password, and never the preference |
| `UserPatch.UserRecord.UpdateUser` | src/modules/app/user/usecases/UpdateUser.usecase.ts:21-50 | Succeeds if and only if the agent is the user, both rows are live and no other row has the e-mail sent; then every column sent holds what was sent, a non-empty password its protected form, and every other column what it held; the preference is written once for a change in it and the user once for a change in either row or for a sent password, never otherwise, updatedAt is stamped exactly then, and the answer is the rows as read back |
| `UserPatchRuns.PatchIsLoneRun` | src/modules/app/user/usecases/UpdateUser.usecase.ts:21-50 | One update request of the interleaved machine left alone, its write steps taken exactly when the gates say yes, succeeds exactly when the PATCH does and leaves in the tables the e-mail and theme the PATCH leaves in the rows, else everything as it was |
| `UserPatchRuns.UpdateStored` | src/modules/app/user/usecases/UpdateUser.usecase.ts:21-50 | The PATCH on a record that the tables store does to it what that lone run does to the tables, so what is proved of all runs is about the gated PATCH |
| `MessageQueue.ApplyKeepsInv` | src/modules/events/queue/consumers/AbstractConsumer.consumer.ts:67-117 | Every delivery step, failure, crash and switch keeps conservation and what each worker relies on |
| `MessageQueue.NoMessageIsLost` | src/modules/events/queue/consumers/AbstractConsumer.consumer.ts:67-117 | Over every run the messages sent are exactly those queued, handled or in the store, under any failure, redelivery and switching |
| `MessageQueue.NoMessageIsLostFromStart` | src/modules/events/queue/handlers/EventsQueue.handler.ts:65-90 | So it is in every state reachable from the empty one |
| `MessageQueue.OutcomesAreForGood` | src/modules/events/queue/consumers/AbstractConsumer.consumer.ts:78-81 | A message leaves the queue only once it was handled or stored, and neither is ever undone |
| `MessageQueue.DisabledHandlesNothing` | src/modules/events/queue/consumers/AbstractConsumer.consumer.ts:71-76 | While disabled, past handler runs already under way, no further message is handled |
| `QueueConsumer.EventsQueueHandler.Execute` | src/modules/events/queue/handlers/EventsQueue.handler.ts:65-131 | A broadcast goes to all, a new connection to the room, a new hook is pulled, and routes or login are disabled as the payload says if and only if it carries the environment's hash; nothing else is emitted. Unreadable bodies and other or failing domain events go to the store; it answers true if and only if the message was handled or stored |
| `QueueConsumer.DisablingIsAuthorized` | src/modules/events/queue/handlers/EventsQueue.handler.ts:92-130 | Over any batch, routes or login are disabled only by a message of the matching schema that carries the environment's hash, and there are no more emissions than messages |
| `QueueConsumer.BatchEmits` | src/modules/events/queue/handlers/EventsQueue.handler.ts:92-130 | Over any batch an event is emitted if and only if one of the messages asks for it, in the sense of the row of Execute |
| `QueueConsumer.ErrorsSinceCompletion` | src/modules/events/queue/consumers/AbstractConsumer.consumer.ts:123-134 | The count kept is that of error and timeout callbacks after the last completed message: what came before does not count, everything after does, refusals do not reset it |
| `QueueConsumer.HandleScriptEffect` | src/modules/events/queue/consumers/AbstractConsumer.consumer.ts:67-82 | What the machine's steps for one delivery amount to, in every combination of failures |
| `QueueConsumer.ReportScriptEffect` | src/modules/events/queue/consumers/AbstractConsumer.consumer.ts:84-117 | What its steps for one reported error amount to |
| `QueueConsumer.DisabledStillStores` | src/modules/events/queue/consumers/AbstractConsumer.consumer.ts:67-117 | In any state with the consumer disabled, a queued message that it refuses and that its error callback is then given is stored, unhandled, and leaves the queue, except where the insert or the removal fails |
| `QueueConsumer.BatchSettles` | src/modules/events/queue/consumers/EventsQueue.consumer.ts:40-44 | In a batch a message is removed if and only if one of its deliveries was handled or stored and then removed; handled and stored likewise delivery by delivery |
| `QueueConsumer.BatchIsMachineRun` | src/modules/events/queue/consumers/EventsQueue.consumer.ts:40-44 | Deliveries of distinct queued messages one after the other are a run of the machine, so a batch loses no message |
| `QueueConsumer.EventsQueueConsumer.HandleMessage` | src/modules/events/queue/consumers/AbstractConsumer.consumer.ts:67-82 | Disabled it throws and changes nothing; else it handles or stores and then removes; the counter is the error count since the last completion; the whole is a run of the machine |
| `QueueConsumer.EventsQueueConsumer.HandleProcessingError` | src/modules/events/queue/consumers/AbstractConsumer.consumer.ts:84-117 | The message is removed only after it was stored, nothing is thrown on, and the whole is a run of the machine |
| `QueueConsumer.EventsQueueConsumer.HandleError` | src/modules/events/queue/consumers/AbstractConsumer.consumer.ts:98-101 | Rethrows if and only if ten or more error or timeout callbacks came since the last completed message |
| `QueueConsumer.EventsQueueConsumer.HandleTimeoutError` | src/modules/events/queue/consumers/AbstractConsumer.consumer.ts:103-106 | The same for a timeout |
| `QueueConsumer.EventsQueueConsumer.HandleMessageBatch` | src/modules/events/queue/consumers/EventsQueue.consumer.ts:40-44 | Messages are handled in order up to and including the first whose handling throws, with the joint effect of exactly those, and the rest of the batch untouched; for distinct queued messages the whole is a run of the machine |
| `SubscriptionEntity.BuildIsEntity` | src/modules/domain/entities/Subscription.entity.ts:74-93 | From any JSON data the constructor makes a normal entity |
| `SubscriptionEntity.AttributesRoundTrip` | src/modules/domain/entities/Subscription.entity.ts:95-108 | Rebuilding an entity from its attributes is the identity |
| `SubscriptionEntity.CacheRoundTrip` | src/modules/domain/entities/Subscription.entity.ts:74-108 | Through the cache's text, where undefined is dropped and dates are strings, it is the identity if and only if the date is valid; an invalid one becomes the present |
| `SubscriptionEntity.DocumentRoundTrip` | src/modules/domain/entities/Subscription.entity.ts:74-108 | Through a document, where undefined is null, it is the identity up to the document's id filling in a missing one and the instant 0 an invalid date |
| `CacheKeys.RemoveFirstAt` | src/modules/common/utils/helpers/CacheAccess.helper.ts:10-12 | Exactly the first occurrence of the pattern goes, wherever it is |
| `CacheKeys.RemoveFirstAbsent` | src/modules/common/utils/helpers/CacheAccess.helper.ts:10-12 | Without an occurrence the key stays as it is |
| `CacheKeys.KeyRoundTrip` | src/modules/common/utils/helpers/CacheAccess.helper.ts:6-12 | The id comes back from its key for all strings, even when it holds the pattern |
| `CacheKeys.KeysAreInjective` | src/modules/common/utils/helpers/CacheAccess.helper.ts:6-8 | Two ids never share a key |
| `CacheKeys.ListedKeyRoundTrip` | src/modules/app/hook/services/Webhook.service.ts:53-56 | Stripping a listed key twice and building it again gives that key, so what is deleted is what was listed |
| `CacheKeys.HookKeyListed` | src/modules/app/hook/services/Webhook.service.ts:71-95 | Every hook saved under a schema is listed under it, and its id comes back |
| `SubscriptionService.SaveIsCoherentIff` | src/modules/app/subscription/services/Subscription.service.ts:66-91 | A save keeps documents unique and cached texts normal if and only if the payload names the subscription it is saved under |
| `SubscriptionService.CachedSubscription` | src/modules/app/subscription/services/Subscription.service.ts:131-139 | In a coherent store a cached text is the normal form of the one document of that subscription |
| `SubscriptionService.Service.Get` | src/modules/app/subscription/services/Subscription.service.ts:46-64 | Gives the same entity on a hit and on a miss, not found if and only if there is no document, and leaves the normal form cached |
| `SubscriptionService.Service.Save` | src/modules/app/subscription/services/Subscription.service.ts:66-91 | Writes the found document or one new one, caches its normal form, and stays coherent if and only if the payload names its subscription |
| `SubscriptionService.Service.Delete` | src/modules/app/subscription/services/Subscription.service.ts:93-105 | The subscription's document and cached text are gone, nothing else is, and it answers whether there was one |
| `SubscriptionService.Service.Forget` | src/modules/app/subscription/services/Subscription.service.ts:136-139 | Expiry or loss of cached keys keeps the store coherent |
| `WebSocketServer.NestedIdWins` | src/modules/events/websocket/server/WebSocket.server.ts:164-167 | The socket's id is the one stored if and only if no nested part of the client's message has another |
| `WebSocketServer.NestedIdBreaks` | src/modules/events/websocket/server/WebSocket.server.ts:160-174 | In every consistent state, a reconnect message with a nested id of another subscription stores that id and leaves documents, sockets and room in disagreement |
| `WebSocketServer.ReconnectedRooms` | src/modules/events/websocket/server/WebSocket.server.ts:160-174 | After a reconnect documents, sockets and room agree if and only if the stored id is the socket's |
| `WebSocketServer.Server.HandleConnection` | src/modules/events/websocket/server/WebSocket.server.ts:144-158 | A new socket gets one document, created now, without client or update time and not listening, and no room, and is announced once on the queue; documents, sockets and room still agree |
| `WebSocketServer.Server.HandleReconnect` | src/modules/events/websocket/server/WebSocket.server.ts:160-174 | A message that is no object changes nothing; else the socket is in the room as its stored flag says, and all still agree if and only if the stored id is the socket's |
| `WebSocketServer.Server.HandleDisconnect` | src/modules/events/websocket/server/WebSocket.server.ts:80-85 | A disconnected socket has neither room nor document, and the others are unchanged |
| `WebhookService.RequestsFit` | src/modules/app/hook/services/Webhook.service.ts:39-58 | A pull requests, each once, exactly the readable hooks sent at once or at an instant before now that have a method and some endpoint, with that method in small letters and that endpoint or else the base address; never one with an invalid date |
| `WebhookService.RequestsInOrder` | src/modules/app/hook/services/Webhook.service.ts:39-58 | The requests come in the order of the listing |
| `WebhookService.PullKeepsValid` | src/modules/app/hook/services/Webhook.service.ts:30-62 | After a pull no hook has fired twice, or at or before the instant it was to be sent at, and what fired is no longer stored |
| `WebhookService.Service.Save` | src/modules/app/hook/services/Webhook.service.ts:71-78 | Adds the one hook under its generated key, and a key never used before cannot have fired |
| `WebhookService.Service.Delete` | src/modules/app/hook/services/Webhook.service.ts:80-86 | Removes exactly the hook of that id and schema and answers whether it was there |
| `WebhookService.Service.PullHook` | src/modules/app/hook/services/Webhook.service.ts:30-62 | Called sequentially: of the schema's hooks exactly those to be sent at once, those whose instant is before now and the unreadable ones are gone, all others stay, and the requests are those of the two rows above; over all such runs no hook fires twice or too early |
| `WebhookPulls.ApplyKeepsInv` | src/modules/app/hook/services/Webhook.service.ts:30-95 | Every step of interleaved pulls (listing, each read, the firing loop, each delete), every save and every loss of keys keeps what was fired accounted for |
| `WebhookPulls.FiringsAreBounded` | src/modules/app/hook/services/Webhook.service.ts:30-62 | Over every interleaving, with deletes that fail or never land, a hook fires only after the instant it was saved with, with its own method and endpoint, at most once for each pull that listed it, and twice only by pulls that overlap |
| `WebhookPulls.RunsFireOnceIff` | src/modules/app/hook/services/Webhook.service.ts:30-62 | Over every interleaving no hook fires twice if and only if no two pulls both read one while it was stored and readable and both went through their loop when it was due |
| `WebhookPulls.FireKeepsOnceIff` | src/modules/app/hook/services/Webhook.service.ts:39-58 | One loop, started when nothing has fired twice yet, repeats nothing if and only if no hook it is about to request was fired before |
| `WebhookPulls.RunsFireOnceIffFresh` | src/modules/app/hook/services/Webhook.service.ts:30-62 | Over every interleaving no hook fires twice if and only if every loop that runs is fresh in that sense |
| `WebhookPulls.SequentialPullsFireOnce` | src/modules/app/hook/services/Webhook.service.ts:60-61 | A corollary: if no two pulls overlap, no hook fires twice |
| `WebhookPulls.OverlappingPullsFireTwice` | src/modules/app/hook/services/Webhook.service.ts:31-61 | From every consistent state any two new pulls whose listings share a stored, readable hook with a method and an endpoint can fire it twice, whatever else they list and each at any instant when it is due |
| `Pagination.PageIsNonEmptyIff` | src/modules/app/user/repositories/user/user.query.ts:84-87 | For positive limit and page, a page has rows if and only if it is below totalPages, and never more than limit |
| `Pagination.PageAt` | src/modules/app/user/repositories/user/user.query.ts:84-87 | Row i of a page is row page * limit + i, and a page is full unless the rows end in it |
| `Pagination.TotalPagesIsLeast` | src/modules/app/user/repositories/user/User.repository.ts:60-60 | totalPages is the least positive number of pages that hold all rows |
| `Pagination.PagesAreTheRowsBehindTheFirst` | src/modules/app/user/repositories/user/User.repository.ts:57-62 | Pages 1 to totalPages - 1, one after the other, are exactly the rows from index limit on |
| `Pagination.PageZeroIsEverything` | src/modules/app/user/repositories/user/user.query.ts:84-87 | Page 0 returns every row, so pages counted from 0 give the rows if and only if one page holds them all |

## Left out

- ApplyFieldReplacement: does not model inherited names or an array's own `length` and index names in the list; the two lists the code uses have none of these.
- ReplaceFields: does not model cyclic data, on which the code does not end, nor holes and named properties of arrays.
- StructuredClone: does not model class instances, getters, and built-in objects such as Date or Map, which are copied by their own rules.
- MustUpdate: does not model NaN, Date values in an input, and inherited properties of an entity.
- UpdateUser: hashing is the parameter `hashed`, and the input is taken as validated; interleaving with other requests is in `UserLifecycle`, where a request's None is a field not sent.
- CreateUser: hashing and the validation of the input are left out, the theme check in the preference's constructor among it.
- DeleteUser: the preference is looked up by its own live flag; the code's joined lookup also skips soft-deleted users, which is the same in every reachable state.
- Hard deletes of users and preferences, which no use case asks for.
- NoMessageIsLost: retention expiry of the queue is left out; library deletion is off at the source.
- HandleMessageBatch: the queue library hands the whole batch, not one message, to the error callback after a batch fails; `HandleProcessingError` and `DisabledStillStores` are about that callback given one message.
- Execute: JSON parsing and the payload schema are the option `Message.body`; effects of a hook pull that failed half-way are not modelled.
- Get: reads and writes inside one call are one atomic step; arbitrary await interleavings of two calls are left out, and the property does not hold for them.
- Save: that an invalid date is kept as the instant 0 is the database driver's behaviour; that an update rebuilds `createdAt` is modelled as it is.
- PullHook: interleaved pulls are in `WebhookPulls`; glob characters in a schema, a listed key whose read fails (the loop then throws midway) and the text of request bodies are left out.
- HandleConnection: of the queue message for a new connection only the announced id is kept, not its other fields.
- ReadableStreamToBuffer: the other branches of `toBuffer` are single calls and left out.
- ParseArrayToString: elements that are neither arrays nor undefined carry the text `toString` gives them; printing of objects by `JSON.stringify` is library behaviour.
- `SubscriptionService.list` over the cache, which feeds key and value pairs to the entity constructor and so does not list entities, and the GraphQL writers of subscriptions.
- Ordering and filters of user lists; only the page arithmetic is modelled.
- Setters of the entities, status codes, exception builders, throttling, hashing and tokens, logging, and the drivers themselves.
