# Mitra: a verified model of its core

Mitra is a federated micro-blogging server (ActivityPub). This project models
the parts of it whose correctness depends on many steps working together, and
proves what they promise.

- **Delivery of activities.** `Deliverer` is the worker that sends one activity
  to many inboxes through a bounded pool, with one request per host and one
  onion request at a time. The worker is written with its loops and in-place
  updates; each run leaves a trace of start and finish events, and the results
  are about all traces. `RecipientList` is the normalization of recipients and
  `Reachability` the per-actor result of a job.
- **The outgoing queue.** `OutgoingQueue` is a state machine over a job table:
  every database write is a step, any number of workers run, any row may be
  picked up again at any time, and a worker may stop between any two steps.
  `QueueRecords` says what flags and records mean in terms of the steps of the
  run, `QueueRetries` adds the exact counts for crash-free runs. `QueueProcessor` is
  the processing of a job with its loops and table updates, shown to refine the
  machine.
- **Thread import.** `Importer` is the work list that collects a thread, as
  steps of a loop (`Iteration`) against an arbitrary fetcher: termination,
  closure, order and causes of errors. `PostCreation` is the creation of posts
  from the collection and says exactly when it succeeds, `ThreadImport` the
  program with its loops, `ImportExamples` threads on which it fails and
  `ImportBudget` when the fetch limit suffices. `FetcherContext` is the gateway
  pool, `GatewayForms` what happens to an identifier behind an arbitrary gateway.
- **HTTP signatures.** `Cavage` and `CavageSigning` are
  draft-cavage-http-signatures, `Rfc9421` is RFC 9421 (sections 2.2 and 2.5):
  signer and verifier work on real strings, with `Text` and `HttpMessage` below
  them.
- **Timed cache.** `TimedCache` is the cache class with the history of its
  calls.
- **Identifiers.** `Uri`, `CanonicalUri` and `LocalIds` are HTTP URIs, 'ap' URIs
  (FEP-ef61), their canonical and compatible forms, and local IDs.

To verify the project: `dafny verify dfyconfig.toml`.

## Findings

Places where the code does less than one might expect; each has its exact
condition among the members below.

- With `deliverer_pool_size = 0` a job with pending deliveries never ends
  (`Deliverer.ZeroPoolIsStuck`).
- A comment in `FetcherContext::prepare_object_id` says that the gateway from a
  compatible ID is first in the pool; it is not if the pool lists it further
  down (`FetcherContext.OwnGatewayFirst`, `FetcherContext.OwnGatewayNotAlwaysFirst`).
- A recipient whose inbox is on this server but whose actor has no account here
  is flagged as delivered with nothing delivered, and its actor is reported
  reachable. Flags are backed by deliveries exactly if there is no such
  recipient (`QueueRecords.FlagMeans`, `QueueRecords.BackedExactly`,
  `QueueRetries.StatusesReflectDeliveries`, `QueueRetries.ReachableWithoutDelivery`).
- Gateways named in the `gateways` query parameter, or given on the command
  line, are not required to be base URIs. With a trailing slash the URI that is
  fetched does not identify the object any more
  (`FetcherContext.PreparedIdKeepsIdentity`,
  `FetcherContext.TrailingSlashChangesIdentity`). Gateways stored with an actor
  are validated, and then the identity is always kept
  (`FetcherContext.ValidatedExactly`, `FetcherContext.ValidatedPoolKeepsIdentity`).
- `ap://did/?q` is accepted, but its canonical form, which ends in a lone slash,
  is not (`CanonicalUri.CanonicalIdempotent`, `CanonicalUri.LoneSlashExample`).
- Imported parents and links are not always created before the posts that refer
  to them, and then the whole import fails. It succeeds exactly if no reference
  leads back to an object collected no later and canonical IDs are distinct
  (`PostCreation.CreatePosts`, `PostCreation.ReferenceInTime`). It fails for a
  post that links to its own reply or to a post that quotes it, for a post with
  two links of which the second is a reply to the first, and for two spellings
  of one ID
  (`ImportExamples`).
- A key ID with a comma cannot be recovered from a draft-cavage header
  (`CavageSigning.ParsedKeyIdHasNoComma`).
- The draft-cavage base does not contain the query, on either side: one
  signature is good for every query, and two accepted requests with one base
  have the same full target exactly if their queries are the same
  (`Cavage.TargetNotSigned`, `Cavage.SameBaseSameTarget`).
- Local object IDs are also accepted as activity IDs. A string is accepted
  exactly if it has the form of one or the other, never of both
  (`LocalIds.ActivityIdsExactly`, `LocalIds.ObjectIdsExactly`).

## Model

| member | source | states |
|---|---|---|
| `Deliverer.DeliverActivityWorker` | mitra_activitypub/src/deliverer.rs:268-388 | The worker terminates for every completion order and pool size of at least 1 (a size of 0 is allowed when nothing is pending). Its run is a legal and complete trace, takes exactly max(n, 1) iterations for n unfinished recipients, and leaves every recipient, field by field, with the result of its own request (success delivers, 410 means gone); finished recipients are untouched. If some unfinished inbox has no host name, nothing is sent or changed |
| `Deliverer.AttemptAnswers` | mitra_activitypub/src/deliverer.rs:334-376 | An attempt field by field: a recipient delivered to or given up before stays as it is; every other one is delivered exactly if its request succeeded, is gone exactly if it was or the answer was 410, and nothing else about it changes |
| `Deliverer.ContactedOnce` | mitra_activitypub/src/deliverer.rs:279-386 | A completed run contacts every recipient that is neither delivered to nor given up exactly once, and nobody else |
| `Deliverer.OnePerHostOneOnion` | mitra_activitypub/src/deliverer.rs:301-313 | In every state no two requests in flight go to one host name, and no two to names ending in ".onion" |
| `Deliverer.GreedyWhenAwaiting` | mitra_activitypub/src/deliverer.rs:292-329 | Whenever an answer is awaited the pool is full, or every waiting delivery shares its host name or the ".onion" ending with one in flight |
| `Deliverer.PoolSafety` | mitra_activitypub/src/deliverer.rs:288-333 | In every state of every legal run: in-flight requests are started and pending ones, never more than the pool size, and no two of them share a host or are both onion requests |
| `Deliverer.PoolBounds` | mitra_activitypub/src/deliverer.rs:288-333 | In flight ⊆ started ⊆ pending, and the pool limit, in every state of every legal run |
| `Deliverer.LegalPrefix` | mitra_activitypub/src/deliverer.rs:291-386 | Every intermediate state of a legal run is itself reached by a legal run, so the safety results hold at every moment |
| `Deliverer.CountEvents` | mitra_activitypub/src/deliverer.rs:297-300 | At every moment a delivery has been started at most once and finished at most once, and finished only if it was started |
| `Deliverer.ExactlyOnce` | mitra_activitypub/src/deliverer.rs:279-386 | A completed run starts and finishes every unfinished recipient exactly once, and no other |
| `Deliverer.EventCount` | mitra_activitypub/src/deliverer.rs:324-333 | The length of a trace is twice the number of started requests less those in flight: every iteration that awaits finishes exactly one |
| `Deliverer.ConflictIsEquivalence` | mitra_activitypub/src/deliverer.rs:301-313 | The two reasons for postponing a delivery together form an equivalence on host names, so the deliveries fall into lanes |
| `Deliverer.SequentialPerHost` | mitra_activitypub/src/deliverer.rs:292-327 | Over a whole run, of two deliveries to one host (or two onion deliveries) the earlier in the list is completed before the later is started |
| `Deliverer.EmptyPoolStartsWork` | mitra_activitypub/src/deliverer.rs:292-327 | After a fill pass an empty pool means that everything pending has been started |
| `Deliverer.ZeroPoolIsStuck` | mitra_activitypub/src/deliverer.rs:294-296 | With a pool of size 0 the only legal run is the empty one, so a job with pending deliveries never completes |
| `Deliverer.StartIsLegal` | mitra_activitypub/src/deliverer.rs:292-327 | The scan in list order is what makes a start legal: nothing earlier in the same lane is unfinished |
| `Deliverer.CollectDeliveries` | mitra_activitypub/src/deliverer.rs:279-285 | Lists exactly the unfinished recipients, once each, in list order, with their host names; fails exactly when one of them has none |
| `Deliverer.Consider` | mitra_activitypub/src/deliverer.rs:297-326 | One list entry: it is started if and only if that is allowed, and otherwise is blocked or was started before |
| `Deliverer.FillPass` | mitra_activitypub/src/deliverer.rs:292-327 | Greedy maximality: after the pass the pool is full or every unsent delivery conflicts with one in flight; nothing is completed by it |
| `Deliverer.AwaitOne` | mitra_activitypub/src/deliverer.rs:329-377 | Whichever request is answered, it is tracked and its index is in bounds; exactly that recipient is changed, delivered on success and gone on 410, and leaves the pool |
| `Deliverer.Round` | mitra_activitypub/src/deliverer.rs:291-386 | One iteration completes exactly one more request, or exits with an empty pool; it exits exactly when the schedule is complete |
| `Deliverer.RunPool` | mitra_activitypub/src/deliverer.rs:287-386 | The loop terminates, ends with a complete legal trace and an empty pool, and applies exactly the results of the pending requests |
| `Deliverer.ExitTest` | mitra_activitypub/src/deliverer.rs:378-385 | The exit condition on the pool map and the sent list holds exactly when every pending delivery has been completed |
| `Deliverer.NothingLeft` | mitra_activitypub/src/deliverer.rs:378-385 | The exit test of the program is that condition, and the pool is empty when it holds |
| `Deliverer.IdlePoolMeansComplete` | mitra_activitypub/src/deliverer.rs:329-385 | If there is nothing to await after a fill pass then the loop exits: it never spins |
| `RecipientList.Normalized` | mitra_activitypub/src/queues.rs:202-216 | The result has exactly the inboxes of the input, each once, primary exactly when some input for that inbox was primary, strictly ordered primary first and then by inbox |
| `RecipientList.NormalizedOrder` | mitra_activitypub/src/queues.rs:211-214 | The order in terms of the fields: primary before others, and then inboxes in lexicographic order |
| `RecipientList.NormalizationIdempotent` | mitra_activitypub/src/queues.rs:202-216 | Normalizing a normalized list changes nothing |
| `RecipientList.NormalizationOrderFree` | mitra_activitypub/src/queues.rs:202-216 | Inputs that are permutations of each other give the same sequence of (inbox, primary) |
| `RecipientList.NormalizationKeepsFirst` | mitra_activitypub/src/queues.rs:206-209 | Of several recipients with one inbox the kept one is the first of the input with that primary flag (both sorts are stable) |
| `RecipientList.DedupRepresents` | mitra_activitypub/src/queues.rs:206-209 | On a list sorted by (inbox, not primary), dropping repeated inboxes keeps every inbox once and keeps a primary one if there is any |
| `Sorting.SortCorrect` | mitra_activitypub/src/queues.rs:206-214 | sort_by_key gives a sorted permutation |
| `Sorting.StringLeExactly` | mitra_activitypub/src/queues.rs:206-214 | Strings compare lexicographically: a prefix comes first, otherwise the first difference decides |
| `Sorting.SortStable` | mitra_activitypub/src/queues.rs:206-214 | sort_by_key keeps the relative order of elements with equal keys |
| `Reachability.GroupsAreFilters` | mitra_activitypub/src/queues.rs:538-545 | The group of an actor is its recipients, all of them and in order; actors without recipients have no group |
| `Reachability.GroupingConserves` | mitra_activitypub/src/queues.rs:538-545 | Every recipient is in the group of its own actor as often as in the job, and in no other |
| `Reachability.ReachabilityFold` | mitra_activitypub/src/queues.rs:537-558 | Every actor of the job gets exactly one status, unreachable exactly when none of its inboxes was delivered to, and is listed as gone exactly when all its inboxes are flagged gone |
| `OutgoingQueue.RecipientsNeverChange` | mitra_activitypub/src/queues.rs:404-531 | Every row and every working copy holds the original recipients in the original order; delivered, unreachable and gone flags are only raised |
| `OutgoingQueue.BackoffBounded` | mitra_activitypub/src/queues.rs:524-531 | In every run each back-off call gets 1 to 3 and its result fits 32 bits, and the delays of a job add up to at most 34200 seconds |
| `OutgoingQueue.BackoffValues` | mitra_activitypub/src/queues.rs:339-343 | The delays are 600, 3300 and 30300 seconds, in all 34200 |
| `OutgoingQueue.PrimaryRecipientsFirst` | mitra_activitypub/src/queues.rs:462-468 | On every attempt of every run, in whatever order answers arrive, an unfinished primary recipient of a host is answered before any other recipient of that host is contacted |
| `OutgoingQueue.OriginsInOrder` | mitra_activitypub/src/queues.rs:218-224 | Every job is created with its recipients in normalized order |
| `OutgoingQueue.ReachableInv` | mitra_activitypub/src/queues.rs:374-566 | The invariant behind the results above holds in every reachable state |
| `OutgoingQueue.NextKeepsInv` | mitra_activitypub/src/queues.rs:374-566 | Every step keeps the invariant |
| `OutgoingQueue.EnqueueKeepsInv` | mitra_activitypub/src/queues.rs:218-239 | A new job holds all its recipients as unfinished |
| `OutgoingQueue.PickUpKeepsInv` | mitra_activitypub/src/queues.rs:386-396 | Reading a row changes nothing; a job without recipients may be deleted at once |
| `OutgoingQueue.LocalStepKeepsInv` | mitra_activitypub/src/queues.rs:404-428 | Raising the flag of a local recipient, with or without an account, keeps the invariant at every single recipient |
| `OutgoingQueue.FilterKeepsInv` | mitra_activitypub/src/queues.rs:430-460 | Ending a job in private mode, or marking recipients on rejected servers, keeps the invariant |
| `OutgoingQueue.SendKeepsInv` | mitra_activitypub/src/queues.rs:462-479 | An attempt, or its abort, keeps the invariant |
| `OutgoingQueue.AttemptKeepsInv` | mitra_activitypub/src/queues.rs:462-472 | A delivery attempt records every raised flag |
| `OutgoingQueue.BadInboxKeepsInv` | mitra_activitypub/src/queues.rs:473-478 | A job is aborted only if one of its original recipients has an inbox without host name |
| `OutgoingQueue.JudgeKeepsInv` | mitra_activitypub/src/queues.rs:492-523 | Giving up gone, deleted and long unreachable recipients after the first attempt keeps the invariant |
| `OutgoingQueue.RequeueKeepsInv` | mitra_activitypub/src/queues.rs:524-532 | The new row takes over everything unfinished while the old row is still there |
| `OutgoingQueue.FinalizeKeepsInv` | mitra_activitypub/src/queues.rs:533-562 | A job ends only when everybody is finished or the retries are used up |
| `OutgoingQueue.DeleteKeepsInv` | mitra_activitypub/src/queues.rs:563-563 | Deleting loses nothing: whatever the row held is resolved or held by a newer row, also when several workers process the same row |
| `OutgoingQueue.CrashKeepsInv` | mitra_activitypub/src/queues.rs:374-566 | A worker may stop between any two steps (this includes every early return on a database error) |
| `OutgoingQueue.CoveredGrows` | mitra_activitypub/src/queues.rs:524-563 | What is resolved or held by a newer row stays so under all steps, including deletion of superseded rows |
| `QueueRecords.NoRecipientLost` | mitra_activitypub/src/queues.rs:386-564 | In every state of every run, with any number of workers, repeated pick-ups and crashes between any two database steps, a recipient that no job row holds as unfinished was delivered to by some step, has a local inbox that does not exist, was given up for one of the reasons of `UnreachableMeans`, ran out of retries after at least four attempts, or belongs to a job ended in private mode or because an inbox has no host name |
| `QueueRecords.FlagMeans` | mitra_activitypub/src/queues.rs:404-428 | A delivered flag in any row or working copy of any run: some step delivered (a successful request, or an addition to a local account's collection) exactly unless the inbox is local and its actor has no account, in which case the flag was raised for nothing |
| `QueueRecords.BackedExactly` | mitra_activitypub/src/queues.rs:414-426 | Every delivered flag in every run is backed by a delivery if and only if no recipient with a local inbox lacks an account |
| `QueueRecords.UnbackedFlag` | mitra_activitypub/src/queues.rs:414-426 | For every recipient without account the run that raises its flag with no success at all |
| `QueueRecords.RecordsMatch` | mitra_activitypub/src/queues.rs:404-472 | The successes and missing inboxes kept in the state are exactly those of the steps of the run |
| `QueueRecords.StepRecords` | mitra_activitypub/src/queues.rs:404-472 | Every step records exactly what it does to a recipient |
| `QueueRecords.OccurredTo` | mitra_activitypub/src/queues.rs:407-427 | Nobody who lacks an account is ever delivered to, and nobody else is ever skipped |
| `QueueRecords.LocalsFirst` | mitra_activitypub/src/queues.rs:404-428 | Before any request every recipient with a local inbox is flagged, so local inboxes are never sent to |
| `QueueRecords.UnreachableMeans` | mitra_activitypub/src/queues.rs:448-523 | A recipient is given up only because the filter rejected its server, or because after the first attempt it was found deleted or long unreachable, or gone after a request to it was answered with 410 |
| `QueueRecords.GoneMeans410` | mitra_activitypub/src/deliverer.rs:352-356 | A gone flag in any row or working copy comes from a request to that recipient that was answered with 410 |
| `QueueRecords.EffectsLast` | mitra_activitypub/src/queues.rs:404-531 | Over every run, what the steps of a worker have done to a recipient since the pick-up shows in its working copy: 410 leaves the gone flag, a rejection and a judgement leave it given up, a delivery leaves the delivered flag |
| `QueueRecords.RejectedNotContacted` | mitra_activitypub/src/queues.rs:448-468 | A recipient that the filter found unfinished and on a rejected server is given up and gets no request before the job is picked up again |
| `QueueRecords.CollectionsExactly` | mitra_activitypub/src/queues.rs:409-422 | The inbox collections of local accounts hold, in every run, exactly the activities that were delivered to a local inbox of the actor |
| `QueueRecords.RetryKeepsFlags` | mitra_activitypub/src/queues.rs:529-531 | The row written for a retry has every recipient as it is in the working copy |
| `QueueRecords.PrivateModeSendsNothing` | mitra_activitypub/src/queues.rs:430-439 | In private mode no run ever contains a delivery attempt |
| `QueueRecords.EnqueueKeepsEveryone` | mitra_activitypub/src/queues.rs:218-239 | A new job has one recipient for every inbox it was created for, primary exactly if one of the given ones was |
| `QueueRecords.WorkersAfter` | mitra_activitypub/src/queues.rs:386-564 | A step changes the working copy of its own worker alone, in the way its part of the code does |
| `QueueRetries.StatusesReflectDeliveries` | mitra_activitypub/src/queues.rs:534-559 | In crash-free runs the status written for an actor at the end is unreachable exactly when no delivery to any of its inboxes succeeded in any attempt and none of them is a local inbox without an account |
| `QueueRetries.FlagAtEnd` | mitra_activitypub/src/queues.rs:404-559 | At the end of a crash-free job a flag is raised exactly when a delivery succeeded or the inbox is a local one without account |
| `QueueRetries.ReachableWithoutDelivery` | mitra_activitypub/src/queues.rs:414-559 | The run in which an actor whose only inbox does not exist is reported reachable with nothing delivered |
| `QueueRetries.BoundedRetries` | mitra_activitypub/src/queues.rs:492-532 | In crash-free runs of one worker an activity has at most four delivery attempts and every recipient at most one success |
| `QueueRetries.ReachableSane` | mitra_activitypub/src/queues.rs:386-564 | In crash-free runs there is one live row per activity, its failure count is the number of attempts made, and the delivered flag of every recipient counts its success or its missing local inbox |
| `QueueRetries.NextKeepsSane` | mitra_activitypub/src/queues.rs:386-564 | Every step of the single worker keeps these counts |
| `QueueRetries.SendCounts` | mitra_activitypub/src/queues.rs:462-472 | An attempt counts one success for exactly the recipients whose flag it raises |
| `QueueProcessor.MarkBlockedInPlace` | mitra_activitypub/src/queues.rs:448-460 | The loop marks exactly the recipients that are neither delivered to nor given up and whose inbox is rejected, and changes nothing else |
| `QueueProcessor.MarkedExactly` | mitra_activitypub/src/queues.rs:448-523 | The same of the marking functions of the queue, for the filter and for the judgement after the first attempt |
| `QueueProcessor.MarkUnreachableInPlace` | mitra_activitypub/src/queues.rs:495-522 | The loop marks exactly the undelivered recipients that are gone, deleted or long unreachable, and changes nothing else |
| `QueueProcessor.JobTable.constructor` | mitra_activitypub/src/queues.rs:374-385 | The empty job table is the initial state of the queue |
| `QueueProcessor.JobTable.Enqueue` | mitra_activitypub/src/queues.rs:218-239 | Adding a job is the enqueue step of the queue |
| `QueueProcessor.JobTable.Delete` | mitra_activitypub/src/queues.rs:563-563 | Removes exactly the processed row |
| `QueueProcessor.JobTable.DeliverLocally` | mitra_activitypub/src/queues.rs:404-428 | The loop over local inboxes is a sequence of local steps that leaves the jobs alone |
| `QueueProcessor.JobTable.DeliverOneLocally` | mitra_activitypub/src/queues.rs:404-428 | One recipient, one step: the activity is added to the collection if the actor has an account, and the flag is raised in any case |
| `QueueProcessor.JobTable.ApplyFilter` | mitra_activitypub/src/queues.rs:430-460 | Private mode ends the job; otherwise the rejected servers are marked |
| `QueueProcessor.JobTable.Attempt` | mitra_activitypub/src/queues.rs:462-479 | Calling the delivery worker is the send step of the queue, including its abort |
| `QueueProcessor.JobTable.GiveUpDead` | mitra_activitypub/src/queues.rs:492-523 | Recipients are given up after the first attempt only |
| `QueueProcessor.JobTable.Reenqueue` | mitra_activitypub/src/queues.rs:524-532 | Adds exactly one row, with the current recipients, and keeps the old one |
| `QueueProcessor.JobTable.Finish` | mitra_activitypub/src/queues.rs:533-562 | Ends the job without touching the table |
| `QueueProcessor.JobTable.Conclude` | mitra_activitypub/src/queues.rs:492-562 | From the attempt to the decision: a run of the queue that keeps all old rows |
| `QueueProcessor.JobTable.Deliver` | mitra_activitypub/src/queues.rs:398-562 | Everything between pick-up and deletion: a run of the queue that keeps all old rows |
| `QueueProcessor.JobTable.ProcessJob` | mitra_activitypub/src/queues.rs:386-564 | Processing a job refines the state machine: the table afterwards is the one reached by steps of this job alone, the processed row is gone and all other rows are unchanged |
| `QueueProcessor.OwnRunIsOrderly` | mitra_activitypub/src/queues.rs:386-564 | Jobs processed one after the other make up a crash-free run, so the bounds on retries apply |
| `Importer.RunEnds` | mitra_activitypub/src/importers.rs:592-679 | Every run against every fetcher. If it ends normally: something was collected, the first object is the requested one or its redirect target, raw IDs are distinct, nothing collected was stored, there are at most fetches + 1 objects, fetches are one per redirect plus one per object collected on arrival and at most the limit, every reply target and link is stored, collected, or a redirect key whose target is stored or collected (one hop), and every parent is the next object unless it is stored or was collected before. If it ends with an error: the cause lies at the popped ID, which is the requested one, the target of a redirect or mentioned by a collected object. A local start is always refused |
| `Importer.ReachableInv` | mitra_activitypub/src/importers.rs:592-679 | The invariant behind this holds after every iteration |
| `Importer.StepKeepsInv` | mitra_activitypub/src/importers.rs:592-679 | One iteration keeps the invariant and decreases the measure (limit − fetches, object in hand, queue length) |
| `Importer.AbsorbKeepsInv` | mitra_activitypub/src/importers.rs:639-678 | The same for an ID that is neither collected nor stored |
| `Importer.SkipKeepsInv` | mitra_activitypub/src/importers.rs:596-631 | Dropping a known ID keeps closure, order and the bounds |
| `Importer.RedirectKeepsInv` | mitra_activitypub/src/importers.rs:657-668 | Recording a redirect keeps them |
| `Importer.CollectKeepsInv` | mitra_activitypub/src/importers.rs:669-678 | Collecting an object keeps them |
| `Importer.FinishedCollection` | mitra_activitypub/src/importers.rs:634-637 | With an empty queue nothing is open and no parent is pending |
| `Importer.ConsistentRedirects` | mitra_activitypub/src/importers.rs:657-668 | If the network answers consistently, the redirect map leads every reference to the object for which the collection was ordered |
| `Importer.ReferencesExactly` | mitra_activitypub/src/handlers/note.rs:714-812 | Exactly what is looked up when a post is created: its parent, its quote and its first ten link tags |
| `Importer.LinksExactly` | mitra_activitypub/src/handlers/note.rs:564-595 | Exactly what is queued besides the parent: all link tags and the quote, once each |
| `Importer.ReferencesAreCollected` | mitra_activitypub/src/handlers/note.rs:564-595 | Whatever is looked up when a post is created (parent, the first ten link tags, quote) was queued for collection |
| `ThreadImport.CollectThread` | mitra_activitypub/src/importers.rs:580-679 | The collecting loop terminates against any fetcher; it goes through exactly the iterations of the model and its outcome means what `Importer.RunEnds` says |
| `ThreadImport.Iterate` | mitra_activitypub/src/importers.rs:592-679 | One iteration on the program's variables is exactly one step of the model |
| `ThreadImport.AbsorbObject` | mitra_activitypub/src/importers.rs:639-678 | Uses the object in hand or spends one fetch within the limit; collects the object or records the redirect |
| `ThreadImport.LookUp` | mitra_activitypub/src/importers.rs:596-632 | Classifies a popped ID: collected before, stored local, stored remote, new, or rejected on one of four grounds |
| `ThreadImport.ExtendQueue` | mitra_activitypub/src/importers.rs:669-676 | The parent goes on top of the queue, the links to its bottom in reverse |
| `ThreadImport.IsCollected` | mitra_activitypub/src/importers.rs:596-601 | Detects exactly the IDs collected before |
| `ThreadImport.ImportPost` | mitra_activitypub/src/importers.rs:573-699 | The result is determined by the run: the stored post, the error of the collecting loop, or, for a gathered thread, success exactly when the collection is importable, and then a post with the canonical ID of the first collected object. A failed creation names a collected object and its cause |
| `ThreadImport.FindPost` | mitra_activitypub/src/importers.rs:695-698 | The final lookup never fails |
| `PostCreation.CreateRemotePost` | mitra_activitypub/src/handlers/note.rs:978-1161 | A post is created exactly when its canonical ID is new, its parent and looked-up links are stored or created by then (redirects applied, compared by canonical ID), and nothing else is wrong with the object; every error has its cause |
| `PostCreation.CreatePosts` | mitra_activitypub/src/importers.rs:684-693 | Creating the posts from the last collected object to the first succeeds exactly when all objects are acceptable, canonical IDs are distinct, and no reference leads back to an object collected no later |
| `PostCreation.CreationOrder` | mitra_activitypub/src/importers.rs:684-693 | That condition is equivalent to every single creation being possible at its turn |
| `PostCreation.ReferenceInTime` | mitra_activitypub/src/importers.rs:596-601 | A parent or link (through its redirect) is stored or created earlier if and only if it does not lead back to an object collected no later, the case that the loop detection skips |
| `PostCreation.ReferencePresent` | mitra_activitypub/src/handlers/note.rs:1010-1022 | The same for the lookup by canonical ID |
| `ImportExamples.LinkedReplyFails` | mitra_activitypub/src/importers.rs:669-693 | A post that links to its own reply: in every such world both are collected, the reply is to be created before its parent, and the import fails |
| `ImportExamples.LinkedQuoteFails` | mitra_activitypub/src/handlers/note.rs:796-804 | The same for a post that links to another one which quotes it |
| `ImportExamples.LinkedSiblingsFail` | mitra_activitypub/src/importers.rs:669-693 | No cycle is needed: a post with two links, the second a reply to the first |
| `ImportExamples.TwoSpellingsFail` | mitra_activitypub/src/importers.rs:596-601 | Two spellings of one ID are both collected, since loop detection compares raw IDs, and the second cannot be created |
| `ImportExamples.ExampleFails` | mitra_activitypub/src/importers.rs:669-693 | A concrete world and run for the first of these |
| `ImportExamples.ImportExample` | mitra_activitypub/src/importers.rs:573-699 | Importing the concrete example ends with a missing reference |
| `ImportBudget.BudgetSuffices` | mitra_activitypub/src/importers.rs:645-648 | Against a consistent network, a limit of one fetch per reachable object plus one per redirected reference is enough: the collection always ends normally |
| `ImportBudget.FetchesBounded` | mitra_activitypub/src/importers.rs:644-655 | A run against a consistent network never makes more fetches than that |
| `ImportBudget.StepWithin` | mitra_activitypub/src/importers.rs:592-679 | Fetches made plus what is still to come at most never increases |
| `ImportBudget.TotalRemove` | mitra_activitypub/src/importers.rs:644-655 | The cost of the reachable objects is the sum of their costs, in whatever order they are visited |
| `Iteration.EndsOnce` | mitra_activitypub/src/importers.rs:592-679 | A run of a loop ends in one place only, so its outcome is determined |
| `FetcherContext.MergeAdds` | mitra_activitypub/src/importers.rs:139-149 | Adding gateways keeps the old pool as a suffix, adds exactly what is missing and introduces no duplicates |
| `FetcherContext.FirstNewcomer` | mitra_activitypub/src/importers.rs:145-149 | The front of the pool becomes the first gateway that is new and not mentioned again |
| `FetcherContext.NoNewcomer` | mitra_activitypub/src/importers.rs:145-149 | Without a new gateway the pool does not change |
| `FetcherContext.OwnGatewayFirst` | mitra_activitypub/src/importers.rs:144-149 | The gateway of the ID itself ends up in front if and only if it is the first newcomer, or there is no newcomer and the pool starts with it |
| `FetcherContext.OwnGatewayUsed` | mitra_activitypub/src/importers.rs:138-153 | The same for an ID as it is prepared: its own gateway, followed by those of its query |
| `FetcherContext.FoundExactly` | mitra_activitypub/src/importers.rs:139-143 | The gateways of an ID: its own first, then those of its query in order |
| `FetcherContext.OwnGatewayNotAlwaysFirst` | mitra_activitypub/src/importers.rs:144-149 | The comment in the code promises more: a gateway listed second in the pool stays second |
| `FetcherContext.FetcherContext.constructor` | mitra_activitypub/src/importers.rs:122-126 | The pool is the given list |
| `FetcherContext.FetcherContext.AddGateways` | mitra_activitypub/src/importers.rs:144-149 | The loop adds the found gateways as specified |
| `FetcherContext.FetcherContext.PrepareObjectId` | mitra_activitypub/src/importers.rs:135-163 | HTTP IDs are returned as they are and leave the pool alone; 'ap' IDs extend the pool and are resolved through its front; an empty pool and an invalid gateway are errors |
| `FetcherContext.PreparedIdKeepsIdentity` | mitra_activitypub/src/importers.rs:151-162 | The prepared URI is the same URI as the ID if and only if the gateway consists of scheme and authority, or is itself an identifier of the object with a query |
| `FetcherContext.ValidatedExactly` | mitra_validators/src/activitypub.rs:65-72 | The validator of actor gateways (a gateway equals its own base) accepts exactly the URIs that consist of scheme and authority |
| `FetcherContext.OwnGatewayValidated` | apx_core/src/url/canonical.rs:107-110 | The gateway of a compatible ID is always of that kind |
| `FetcherContext.ValidatedPoolKeepsIdentity` | mitra_activitypub/src/importers.rs:135-163 | With validated gateways in the pool and in the query of the ID the prepared URI always identifies the object |
| `FetcherContext.TrailingSlashChangesIdentity` | mitra_activitypub/src/importers.rs:151-162 | A gateway written with a trailing slash gives a URI that does not identify the object |
| `GatewayForms.IdentityBehindGateway` | apx_core/src/url/canonical.rs:36-38 | For an arbitrary HTTP URI used as a gateway: exactly when the result canonicalizes to the object |
| `GatewayForms.CanonicalOfHttp` | apx_core/src/url/canonical.rs:98-145 | Canonicalization of any valid HTTP URI by parts: outside the gateway path it is kept, under it the DID ends at the first slash and query and fragment belong to the location |
| `GatewayForms.DidUrlOfPath` | apx_core/src/url/ap_uri.rs:56-78 | A DID URL given as path, query and fragment is read part by part; a path without slash is never accepted |
| `GatewayForms.GatewayWithQuery` | apx_core/src/url/canonical.rs:98-111 | A gateway with a query works exactly if its own path identifies the object |
| `GatewayForms.GatewayWithPath` | apx_core/src/url/canonical.rs:98-111 | A gateway with a path never works |
| `GatewayForms.GatewayWithFragment` | apx_core/src/url/canonical.rs:98-111 | A gateway with a fragment never works |
| `HttpMessage.CheckRequiredComponents` | apx_core/src/http_signatures/verify.rs:146-156 | Accepts exactly when every required component is signed; otherwise names one that is required and not signed |
| `HttpMessage.SignedDigest` | apx_core/src/http_signatures/verify.rs:108-144 | If the header of the digest is signed, the digest is the one of the preferred signed header |
| `HttpMessage.GetTextExactly` | apx_core/src/http_signatures/verify.rs:254-258 | Header lookup ignores letter case, and tells missing headers from those that are not text |
| `HttpMessage.InsertFacts` | apx_core/src/http_signatures/verify.rs:237-260 | Insertion into the ordered map keeps keys distinct, adds exactly one key, keeps the place of an existing one and leaves all other entries alone |
| `HttpMessage.Position` | apx_core/src/http_signatures/verify.rs:371-373 | Finds the first entry with the key, if there is one |
| `HttpMessage.GetTextFacts` | apx_core/src/http_signatures/verify.rs:254-258 | Names and values that can be looked up contain nothing that could be mistaken for the layout of the base |
| `Text.SplitJoin` | apx_core/src/http_signatures/create.rs:139-142 | Splitting undoes joining when the separator does not occur in the parts |
| `Text.JoinSplit` | apx_core/src/http_signatures/verify.rs:174-174 | Joining undoes splitting |
| `Text.LowerExactly` | apx_core/src/http_signatures/create.rs:109-109 | Lower-casing replaces the 26 capital letters and nothing else |
| `Text.JoinInjective` | apx_core/src/http_signatures/create.rs:135-138 | Joined lines determine the lines |
| `Text.PrefixInjective` | apx_core/src/http_signatures/create.rs:136-136 | The part before the first separator and the part after it are determined by the whole |
| `HttpMessage.BaseOfInjective` | apx_core/src/http_signatures/verify.rs:262-266 | A base determines its entries whenever a line determines its entry and stays on one line; both schemes are instances |
| `Cavage.BaseInjective` | apx_core/src/http_signatures/verify.rs:262-266 | The base determines names, values and order of the entries |
| `Cavage.BaseUnambiguous` | apx_core/src/http_signatures/verify.rs:160-278 | Two accepted requests with the same base have the same components with the same values in the same order, hence the same path, host and lower-cased method, and the same content digest when both methods carry a body |
| `Cavage.AcceptedExactly` | apx_core/src/http_signatures/verify.rs:160-278 | A request is accepted with a given result if and only if header, parameters, host, times and signed components say so; nothing else is a ground for rejection |
| `Cavage.RebuildExactly` | apx_core/src/http_signatures/verify.rs:236-261 | The base can be rebuilt exactly if every listed component is available |
| `Cavage.AcceptedIsCovered` | apx_core/src/http_signatures/verify.rs:113-115 | Every accepted request has signed "(request-target)" and "host"; a POST, PUT or PATCH has a digest that was read from a signed header (Content-Digest before Digest), and any other method has none |
| `Cavage.SameBaseSameRequest` | apx_core/src/http_signatures/verify.rs:220-266 | The same from acceptance alone |
| `Cavage.ParseAccepts` | apx_core/src/http_signatures/verify.rs:165-277 | What acceptance guarantees: required components are signed and the digest comes from a signed header |
| `Cavage.AcceptedPrintable` | apx_core/src/http_signatures/verify.rs:236-266 | The entries of an accepted request contain no line break and no colon in names |
| `Cavage.RebuildFacts` | apx_core/src/http_signatures/verify.rs:236-261 | The rebuilt entries have distinct names, exactly the listed ones, each with the value of the request |
| `Cavage.ReassembleFacts` | apx_core/src/http_signatures/verify.rs:220-261 | Request target, host and (for methods with a body) digest are signed |
| `Cavage.TargetNotSigned` | apx_core/src/http_signatures/verify.rs:236-266 | The query is not signed: every request, accepted or rejected, is parsed alike under any other query |
| `Cavage.SameBaseSameTarget` | apx_core/src/http_signatures/verify.rs:239-244 | Two accepted requests with the same base have the same path and query if and only if their queries are the same |
| `Cavage.OtherQueryAccepted` | apx_core/src/http_signatures/verify.rs:239-244 | For every accepted request and every other query there is a second accepted request with the same base and another target |
| `CavageSigning.ParseHttpSignature` | apx_core/src/http_signatures/verify.rs:160-278 | The parser with its loops computes the specified result, errors included |
| `CavageSigning.ReadFields` | apx_core/src/http_signatures/verify.rs:165-220 | Its first half: everything read from the Signature, Host and Date headers |
| `CavageSigning.FillParameters` | apx_core/src/http_signatures/verify.rs:173-180 | The loop over the header items computes the parameter map, or fails at the first malformed item |
| `CavageSigning.FillEntries` | apx_core/src/http_signatures/verify.rs:237-261 | The loop over the signed headers computes the entries, or fails with the first error |
| `CavageSigning.CreateHttpSignature` | apx_core/src/http_signatures/create.rs:126-172 | What the signer produces is accepted: the verifier recovers key ID, signature, host and digest and rebuilds exactly the signed base, under whatever query the request is sent; a method with a body but no digest is rejected |
| `CavageSigning.MissingDigestRejected` | apx_core/src/http_signatures/verify.rs:108-129 | A signed POST, PUT or PATCH without a digest is rejected, so that condition of the round trip is exact |
| `CavageSigning.SignedText` | apx_core/src/http_signatures/create.rs:107-138 | The signed text in full, without and with a body |
| `CavageSigning.HeaderTextExactly` | apx_core/src/http_signatures/create.rs:160-166 | The Signature header in full |
| `CavageSigning.ComponentsExactly` | apx_core/src/http_signatures/verify.rs:239-259 | The value of every signed component: request target, the `created` and `expires` parameters, headers |
| `CavageSigning.ExpiryExactly` | apx_core/src/http_signatures/verify.rs:197-218 | The time of creation and the expiry, with and without the parameters: `expires`, else twelve hours after `created` or the Date header |
| `CavageSigning.ParamExactly` | apx_core/src/http_signatures/verify.rs:171-180 | Exactly which items are parameters, and what they mean |
| `CavageSigning.QuotesRemoved` | apx_core/src/http_utils.rs:1-7 | Quotes are removed if there is one at either end, and otherwise the value is kept |
| `CavageSigning.DistinctHeadersInOrder` | apx_core/src/http_signatures/verify.rs:237-261 | Distinct headers are rebuilt in the order in which they are listed |
| `CavageSigning.FieldsRoundTrip` | apx_core/src/http_signatures/verify.rs:165-220 | The produced header gives back key ID, header list and signature |
| `CavageSigning.ReassembleRoundTrip` | apx_core/src/http_signatures/verify.rs:220-261 | The verifier rebuilds the signed entries from the request |
| `CavageSigning.RoundTrip` | apx_core/src/http_signatures/create.rs:126-172 | Sign, then verify: for every method, path, host, date and comma-free key ID, with a digest whenever the method carries a body, parsing recovers key ID, header list, signature, host and digest, rebuilds exactly the signed base and sets the expiry twelve hours after the date |
| `CavageSigning.ParsedKeyIdHasNoComma` | apx_core/src/http_signatures/verify.rs:174-184 | A key ID with a comma is never recovered, so the condition of the round trip is exact |
| `Rfc9421.BaseInjective` | apx_core/src/http_signatures/verify.rs:415-419 | The base of section 2.5 of RFC 9421 determines identifiers, values and order |
| `Rfc9421.BaseUnambiguous` | apx_core/src/http_signatures/verify.rs:282-431 | Two accepted requests with the same base have the same components, values, order and signature parameters, hence the same method, target URI and content digest |
| `Rfc9421.AcceptedExactly` | apx_core/src/http_signatures/verify.rs:282-431 | A request is accepted with a given result if and only if the first signature, the parameters under its label, the request and the signed components say so |
| `Rfc9421.RebuildExactly` | apx_core/src/http_signatures/verify.rs:369-413 | The base can be rebuilt exactly if every listed component is available and none is listed twice |
| `Rfc9421.ComponentIdsExactly` | apx_core/src/http_signatures/verify.rs:343-349 | The components are the list items, all of which have to be strings |
| `Rfc9421.AcceptedIsCovered` | apx_core/src/http_signatures/verify.rs:354-366 | Every accepted request has signed "@method" and "@target-uri"; a POST, PUT or PATCH has a digest that was read from a signed header (Content-Digest before Digest), and any other method has none |
| `Rfc9421.RebuildFacts` | apx_core/src/http_signatures/verify.rs:369-413 | The rebuilt entries are the listed components in order, distinct, each with the value of the request |
| `Rfc9421.ReassembleFacts` | apx_core/src/http_signatures/verify.rs:354-413 | Method, target URI and (for methods with a body) digest are signed |
| `Rfc9421.FillEntries` | apx_core/src/http_signatures/verify.rs:369-413 | The loop computes the entries, or fails at the first duplicate or unavailable component |
| `Rfc9421.CreateHttpSignature` | apx_core/src/http_signatures/create.rs:209-279 | What the signer produces is accepted: the verifier recovers key ID and signature and rebuilds exactly the signed base; the signer fails exactly when something cannot be serialized |
| `Rfc9421.ParseHttpSignature` | apx_core/src/http_signatures/verify.rs:282-431 | The parser with its loops computes the specified result, errors included |
| `Rfc9421.ReadClaims` | apx_core/src/http_signatures/verify.rs:321-352 | Key ID, expiry, components and authority, or the first error |
| `Rfc9421.FillComponents` | apx_core/src/http_signatures/verify.rs:343-349 | The loop lists the component identifiers, or fails at the first that is not a string |
| `Rfc9421.ClaimsRoundTrip` | apx_core/src/http_signatures/verify.rs:321-352 | Key ID, creation time and components of a signed list are read back |
| `Rfc9421.HeadersRoundTrip` | apx_core/src/http_signatures/verify.rs:288-320 | Signature and parameter list are read back from the two headers |
| `Rfc9421.SignedText` | apx_core/src/http_signatures/create.rs:209-247 | The signed text in full, without and with a body |
| `Rfc9421.DerivedComponents` | apx_core/src/http_signatures/verify.rs:374-400 | The value of each of the six derived components |
| `Rfc9421.OtherComponents` | apx_core/src/http_signatures/verify.rs:401-410 | Any other name that starts with an at sign is refused, and all other names are headers |
| `Rfc9421.ExpiryExactly` | apx_core/src/http_signatures/verify.rs:327-342 | The expiry: `expires`, else twelve hours after `created`, else an error |
| `Rfc9421.DistinctComponentsInOrder` | apx_core/src/http_signatures/verify.rs:369-413 | Distinct components are rebuilt in the order in which they are listed |
| `Rfc9421.RoundTrip` | apx_core/src/http_signatures/create.rs:209-279 | If the structured field library reads back the dictionaries it wrote, the verifier rebuilds exactly the signed base, recovers key ID, signature and digest and sets the expiry twelve hours after creation; a method with a body but no digest is rejected |
| `TimedCache.TimedCache.constructor` | mitra_api/src/state.rs:13-15 | The empty cache agrees with the empty history |
| `TimedCache.TimedCache.Evict` | mitra_api/src/state.rs:18-36 | Keeps only live entries, unchanged, at most `size`; the store still agrees with its history |
| `TimedCache.TimedCache.Set` | mitra_api/src/state.rs:38-41 | The entry is stored; at most `size` + 1 entries; the store still agrees with its history |
| `TimedCache.TimedCache.Get` | mitra_api/src/state.rs:43-49 | Returns nothing or the last value set for the key, less than `ttl` seconds ago; such a value is missing only if at some eviction since it was set `size` other keys were no older |
| `TimedCache.LiveExactly` | mitra_api/src/state.rs:20-22 | An entry lives while less than `ttl` seconds, in nanoseconds, have passed |
| `TimedCache.LostWhileLive` | mitra_api/src/state.rs:18-36 | A key that has not expired can only have been lost by being crowded out, and the eviction is named |
| `TimedCache.EvictAgrees` | mitra_api/src/state.rs:18-36 | Removing expired entries and all but the `size` latest keeps agreement with the history |
| `TimedCache.SetAgrees` | mitra_api/src/state.rs:38-41 | Inserting an entry keeps agreement with the history |
| `TimedCache.Latest` | mitra_api/src/state.rs:25-33 | Chooses `size` keys none of which is older than a key left out, whatever the iteration order |
| `TimedCache.LastOnesAreLatest` | mitra_api/src/state.rs:28-33 | The end of the list sorted by time holds the latest entries |
| `TimedCache.Enumerate` | mitra_api/src/state.rs:25-27 | Iteration visits every key once, in some order |
| `Uri.SplitPrintRelative` | apx_core/src/url/http_uri.rs:155-162 | A printed relative reference splits into its parts |
| `Uri.PrintSplitRelative` | apx_core/src/url/http_uri.rs:155-162 | The parts of a split relative reference print as the original |
| `Uri.RemoveQueryDropsQuery` | apx_core/src/url/ap_uri.rs:35-43 | Printing without the query and parsing again drops exactly the query |
| `Uri.PrintSplitHttp` | apx_core/src/url/http_uri.rs:118-162 | Base and relative part of an HTTP URI make up the original string |
| `Uri.SplitPrintHttp` | apx_core/src/url/http_uri.rs:118-162 | A printed HTTP URI splits into its parts |
| `Uri.HttpPrintsOriginal` | apx_core/src/url/http_uri.rs:182-187 | A parsed HTTP URI prints as the string it was parsed from |
| `Uri.ParseDidUrlFacts` | apx_core/src/url/ap_uri.rs:56-78 | A parsed 'ap' URI has a plain DID that parses to itself and a valid absolute location of at least two characters |
| `Uri.DidUrlRoundTrip` | apx_core/src/url/ap_uri.rs:56-108 | The DID URL of an 'ap' URI parses back, exactly unless the location is a lone slash |
| `Uri.ApRoundTrip` | apx_core/src/url/ap_uri.rs:56-161 | The same for the whole 'ap' URI |
| `Uri.HttpExactly` | apx_core/src/url/http_uri.rs:53-79 | For every string and parts: it parses into them exactly if it is made up of them, the scheme is http or https, the authority is accepted and path, query and fragment have valid characters |
| `Uri.DidUrlExactly` | apx_core/src/url/ap_uri.rs:56-78 | For every string: it is read as a DID URL exactly if it is a DID followed by an absolute path that is not a network path, with valid query and fragment, and more than a lone slash |
| `Uri.ApSchemes` | apx_core/src/url/ap_uri.rs:22-24 | Both spellings of the scheme are read alike |
| `Uri.DidAccepted` | apx_core/src/url/ap_uri.rs:22-22 | "did", a method of letters and an identifier, with plain or encoded separators, is accepted |
| `Uri.DidHasShape` | apx_core/src/url/ap_uri.rs:22-22 | Nothing else is |
| `Uri.EscapesExactly` | apx_core/src/url/ap_uri.rs:70-72 | Percent signs introduce two hexadecimal digits; every other character has to be allowed |
| `Uri.UriCharacters` | apx_core/src/url/ap_uri.rs:70-72 | The characters of paths, queries and fragments (sections 3.3 to 3.5 of RFC 3986) and of DIDs |
| `CanonicalUri.NotationExactly` | apx_core/src/url/canonical.rs:36-38 | The canonical and the compatible notation in full |
| `CanonicalUri.SameOriginExactly` | apx_core/src/url/canonical.rs:212-218 | For all identifiers: two HTTP URIs have the same origin exactly if scheme, host and port agree (80 and 443 by default), two 'ap' URIs exactly if their DIDs agree, and one of each never |
| `CanonicalUri.UriRoundTrip` | apx_core/src/url/canonical.rs:120-170 | Reparsing the printed form of any parsed URI gives it back, gateway and query included |
| `CanonicalUri.CompatibleParses` | apx_core/src/url/canonical.rs:98-111 | The compatible form gives back gateway and 'ap' URI |
| `CanonicalUri.HttpParses` | apx_core/src/url/canonical.rs:120-135 | A valid HTTP URI parses back; its path decides whether it stands for an 'ap' URI |
| `CanonicalUri.ApParses` | apx_core/src/url/canonical.rs:120-125 | The canonical notation parses back, exactly unless the location is a lone slash |
| `CanonicalUri.ParsedApFacts` | apx_core/src/url/canonical.rs:98-135 | What parsing guarantees about 'ap' identifiers; their gateways consist of scheme and authority |
| `CanonicalUri.GatewayIndependent` | apx_core/src/url/canonical.rs:137-145 | The canonical form does not depend on the gateway nor on whether there is one |
| `CanonicalUri.CanonicalIdempotent` | apx_core/src/url/canonical.rs:42-55 | Canonicalizing the printed canonical form gives it back, exactly unless its location is a lone slash, when it is rejected |
| `CanonicalUri.LoneSlashExample` | apx_core/src/url/ap_uri.rs:35-43 | The exception is real: ap://did/?q is accepted and its canonical form is not |
| `CanonicalUri.HttpIsCanonical` | apx_core/src/url/canonical.rs:137-145 | HTTP identifiers are canonical as they are |
| `CanonicalUri.SameUriBehindGateway` | apx_core/src/url/canonical.rs:205-218 | An identifier and its form behind a gateway are the same URI and have the same origin. (Being an equality of canonical forms, same URI is an equivalence and implies same origin: `SameUriEquivalence`) |
| `LocalIds.ActorIdRoundTrip` | mitra_activitypub/src/identifiers.rs:31-45 | A local actor ID, built and written in compatible or canonical form, canonicalizes to itself and parses to the same username (server) or UUID (key) |
| `LocalIds.ActivityIdRoundTrip` | mitra_activitypub/src/identifiers.rs:156-187 | The same for activity IDs, which never parse as object IDs |
| `LocalIds.ObjectIdRoundTrip` | mitra_activitypub/src/identifiers.rs:222-272 | A local object ID parses to its UUID, and also as an activity ID of the older format |
| `LocalIds.BuiltText` | mitra_activitypub/src/identifiers.rs:425-438 | The text of a built ID in full: canonical, or behind the server's gateway if that is preferred |
| `LocalIds.ObjectIdText` | mitra_activitypub/src/identifiers.rs:112-114 | The same for object IDs |
| `LocalIds.IdCharacters` | mitra_activitypub/src/identifiers.rs:202-228 | The characters of usernames and UUIDs |
| `LocalIds.ObjectIdsExactly` | mitra_activitypub/src/identifiers.rs:222-234 | For every string: it parses as a local object ID with a given UUID if and only if it is the authority, "/objects/" and a spelling of that UUID |
| `LocalIds.ActivityIdsExactly` | mitra_activitypub/src/identifiers.rs:252-272 | For every string: it parses as a local activity ID if and only if it has the form of an object ID, or is the authority, "/activities/", a lower-case type and the UUID; no string has both forms |
| `LocalIds.ActorIdsExactly` | mitra_activitypub/src/identifiers.rs:195-220 | For every string: it parses as a local actor ID if and only if it is the authority, "/users/" and the username (server), or "/actors/" and the UUID (key) |
| `LocalIds.UuidTailExactly` | mitra_activitypub/src/identifiers.rs:222-234 | The same for any prefix |
| `LocalIds.LocalIdForms` | mitra_activitypub/src/identifiers.rs:425-438 | For any plain path under the authority, canonical and compatible form parse to the same ID with the right base and path |

## Left out

- Incoming queue (`process_queued_incoming_activities`): it has the same order of re-enqueueing before deletion with less state; it would only add easier members.
- Cryptography, hashing, base64, dates, integers in headers, structured fields, DID, UUID and percent decoding: functions of the `Library` parameters. The round trips assume of them that they read back what they wrote, and of DIDs that the printed form is plain and parses to itself.
- WHATWG checks on HTTP URIs: a predicate on the authority; what that library checks beyond the authority for strings that are valid under RFC 3986 is not captured.
- PostgreSQL: the job table is a map, IDs are given out in increasing order. Job status and the one-hour timeout are not modelled; any row may be picked up at any time.
- Early returns on database errors in job processing: a crash of that worker, since the row stays.
- Profile lookups and gone-actor deletion: whether an actor has an account does not change during a run; which recipients are deleted or long unreachable is a parameter of the step.
- QueueProcessor.JobTable.ProcessJob: runs one job at a time without crashes; interleaving and crashes are covered by `OutgoingQueue`.
- QueueRetries.BoundedRetries: for one worker; when two workers pick up the same row, or a worker crashes after sending, a delivery can be repeated.
- QueueProcessor.JobTable.Attempt: requires a pool size of at least 1, see `Deliverer.ZeroPoolIsStuck`.
- Reachability.ReachabilityFold: the order in which actors are listed (by ID, in the source) is not captured.
- Deliverer.DeliverActivityWorker: requests are represented by their list index and their results are a function of it; the list of sent indices is a set; logging is omitted.
- ThreadImport.CollectThread: the database is a fixed snapshot, an object that was received carries the requested ID, and the fetcher refuses objects with local IDs, as the callers and the client in the source see to.
- PostCreation.CreateRemotePost: everything besides the canonical ID and the lookups of parent and links that can make it fail (author, content, attachments, limits) is one predicate on the object; which of several errors is reported first is not captured. Link tags that are malformed or of another media type are marked as such in the object.
- ImportBudget.BudgetSuffices: the network answers an ID always alike, and the ID of an answer with that answer.
- FetcherContext.FetcherContext.PrepareObjectId: the gateways in the query of an 'ap' URI are a parameter; removal of failing gateways is not modelled.
- TimedCache.TimedCache.Evict: reads the clock once per eviction, the source once per entry; clock readings are nanoseconds.
- Rfc9421.BaseUnambiguous: for the mode in which required components are checked; the parser's other mode is not modelled.
- Rfc9421.RoundTrip: that the structured field library reads back a dictionary with one entry is assumed of the library.
- Choice between the two schemes, the expiry check and the signature check itself in `verify_http_signature`.
- CavageSigning.CreateHttpSignature: URL normalization and the host and port of the request are inputs.
- Several values for one header: the header map has one.
- HTTP clients, HTML cleaning, markdown, validators, configuration, command line, API views.
