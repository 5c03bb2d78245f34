# Verification of vstutils' caching, locking, batching and tree code

A Dafny 4.11 model of the parts of vstutils whose correctness spans several functions, several
processes, or both sides of the wire, with proofs of what they promise. `dafny verify
dfyconfig.toml` checks the whole project.

* `EtagStore`, `EtagRuns`: the version store of a cached model. A shared cache holds one version
  for the table, a "postfix", and one version per row under a key that contains the postfix.
  Entries may vanish at any time. `EtagStore` treats a read or an invalidation as one step and
  holds the cache object; `EtagRuns` interleaves any number of them at every single cache access.
* `EtagHeader`, `EtagValue`: the text of an etag and how a conditional header is compared with it.
* `HttpCache`, `ConditionalWrites`, `ResponseCache`: requests of any number of clients with
  `If-None-Match` and `If-Match`, and the browser's response cache for bulk requests. What a
  response shows is taken to be a function of the writes that cover the resource, of the query
  and of the context (language, user, session); every write goes through the signals.
  `Transactions` takes apart the signal of a save and the commit that makes it visible;
  `StoredPages` brings commits, page and tag down to the single cache accesses of `EtagRuns`.
* `DeepTree`: deep children and parents of rows, by recursive query and by accumulator.
* `Locks`, `Scheduler`, `Overdue`: the lock over an expiring cache, the singleton beat scheduler,
  and its discarding of overdue tasks.
* `Endpoint`: the bulk endpoint. `BulkBatching`, `AggregatedQueries`: the client's batching of
  calls and of lookups.
* `MultiKeySort`, `CustomQuery`, `Crontab`, `ImageFit`: sorting by several columns, the in-memory
  query engine, the crontab field, the arithmetic of fitting an image. `Text` and `Common` serve
  the others.

Values that vstutils draws with uuid4 are numbers from a counter, so a new value differs from all
earlier ones; two texts that are compared are taken to have different hashes unless they are
equal. An access to a shared cache is one atomic step.

## Where the code falls short of a promise

Each of these is kept in the model as the code has it, with a lemma or contract that shows it
and says exactly when it happens.

* The ETag header of a page is computed lazily, after its body (`finalize_response`). A write in
  between gives the old body the new tag: a 304 to it is wrong from then on, and an edit made from
  it overwrites a row its author never saw. Both are safe if and only if no write that touches
  the page came in between (`LateTagIsSafeIff`, `LateTagGuardsIff`, `LateTagExample`). The results
  about whole runs handle a request as one step.
* Every operation of a bulk request other than a GET runs in a transaction, and a POST is one as a
  whole, but the signal invalidates when an instance is saved. A page rendered and tagged before
  the commit carries the new tag and lacks the write, for good. A page is safe to use if and only
  if no touching write was committed between its body and its tag and no open transaction has
  saved one when the tag is read (`PageIsSafeIff`, `OpenTransactionExample`).
* A transactional bulk request reads its own writes. When its last operation fails, the reply lists
  as many results as there were requests, so the client takes it for an answer and stores the
  pages in it; the rollback restores the rows, but not the versions, and the phantom page is
  answered 304 from then on (`PhantomIsServed`, `PhantomExample`). Such a page is safe if and only
  if the transaction committed or had not touched it, and no other open one has
  (`InsidePageIsSafeIff`); runs without phantoms are as they should be (`CachedEqualsUncached`).
  Updates through a query set are sent this way.
* The check of a conditional write and its save are apart: two writers can both pass the check
  before either saves. A write lands on the row its page shows if and only if no touching write
  came between (`CheckThenWriteIff`, `TwoWritersExample`).
* The status of a bulk reply is not looked at, and JSON without a length is taken for an empty list:
  when the request is refused, for instance with the `{"detail": ...}` of a 401 for an expired
  token, none of its calls is ever resolved or rejected (`UnlistedIsForever`, `RefusedExample`),
  and the calls of an answered batch are settled if and only if the reply is a list or an error
  (`EveryCallHasOnePlace`).
* The response cache writes `If-None-Match` into the caller's own request objects. One that is sent
  again when nothing is stored for it any more gets a bare 304 if and only if the tag is still
  current (`Prepare`, `ResentIsBareIff`).
* Releasing a lock deletes its key whoever owns the entry and keeps the id, so a `with` block that
  is left and an object that is collected later release twice, and a third client can get in
  (`SecondReleaseBreaksExclusion`). Nobody releases while another client holds the lock, and
  nobody outlives its lease, if and only if holders are protected throughout the run
  (`ProtectedThroughoutIff`), if and only if no newcomer could at any moment get in beside a holder
  (`UnbreakableThroughoutIff`).
* Without the current rows, the two deep-tree back ends differ on tables where a start row can be
  reached from a start row, and on no others (`BackEndsAgree`, `BackEndsDifferOnCycle`).
* Keys to look up are joined with commas, and the server splits them there, but the limit is the
  number of keys. One query finds all there is if and only if no key contains a comma
  (`AggregatedFindsAllIff`), and answers like one query for each key if and only if all of them
  do or there are no more different tokens than keys (`AggregatedEqualsSingleIff`); otherwise a
  key without a comma can be cut off (`StarvedExample`).
* The pieces of an etag are joined by underscores, and a missing session leaves no trace: two
  senders get one etag if and only if they agree on all it depends on, or one has no session, its
  user id is the other's session key, and its language is the other's language and user id joined
  (`EtagsEqualIff`, `ClashExample`). That takes a site whose user ids can look like session keys
  (32 letters and digits for Django's own), for instance a user model with such strings as keys.
* A weak tag passes in `If-Match`; section 13.1.1 of RFC 9110 asks for the strong comparison
  (`OwnHeaderNames`). A header of only `W/` is an index error, and nothing else is but an empty
  etag (`CheckRequestEtag`).
* The documentation of the crontab field allows 7 for Sunday; the code accepts a number exactly in
  the range of its column, which is 0 to 6 (`NumberAccepted`).
* Chained `filter` calls on one lookup overwrite each other (`SameLookupOverwrites`,
  `DisagreeingFilters`): they select what both select if and only if in no column the merged
  dictionary lets a value through that the first one stops (`FiltersConjoinIff`). With the usual
  kinds of values and one lookup per column, that is when the second asks for no more than the
  first wherever both look (`FiltersConjoinIffTightened`); with several lookups on a column another
  one may hide the difference (`HiddenDisagreement`).
* Chained `exclude` calls merge into one conjunction (`ExcludesMerge`, `ExcludesOnTwoColumns`): they
  leave out what either leaves out if and only if one of them is empty or either alone stops
  whatever the merged one stops (`ExcludesConjoinIff`, `ExcludesOnOneLookup`).
* `multikeysort` leaves the caller's list of columns reversed, always (`SortByColumns`).
* A variable of a bulk request is bound before the result is made: when making it fails, the
  result is a 500 and the variable keeps the inner response (`ReferencesComeFromBefore`).
* A response that is cached is returned in place of a 304 that a caller asked for with a condition
  of its own, and only then does the cache show (`CachedEqualsUncached`).

## Model

| member | source | states |
|---|---|---|
| EtagStore.ReadIsStable | vstutils/models/base.py:296-305 | reading a version answers the current one and makes it current if there was none; reading again answers the same |
| EtagStore.ReadKeepsOthers | vstutils/models/base.py:291-305 | reading one subject never brings an old version of another back |
| EtagStore.InvalidationIsExact | vstutils/models/base.py:307-326 | every covered subject gets a version never seen before; a row that is not covered keeps its version as long as the postfix is stored |
| EtagStore.EvictionForgets | vstutils/models/base.py:296-305 | losing entries can only make a version unknown; those lost are gone and the others stay |
| EtagStore.EtagCache.ApiCacheName | vstutils/models/base.py:291-294 | the key of a subject, reading the postfix only when a row is named without it |
| EtagStore.EtagCache.GetEtagValue | vstutils/models/base.py:296-305 | the cache after the two nested reads, and the value |
| EtagStore.EtagCache.SetEtagValue | vstutils/models/base.py:307-326 | the cache after an invalidation, built from the growing list of keys |
| EtagRuns.SoundStep | vstutils/models/base.py:291-326 | every cache access of every call keeps the invariant of the store: values waiting to be written are stored nowhere, no value of a row under two postfixes |
| EtagRuns.NothingComesBack | vstutils/models/base.py:307-326 | a value no call holds is never written again, and a postfix that is no longer stored never comes back |
| EtagRuns.AfterInvalidation | vstutils/models/base.py:307-326 | when an invalidation is over, a value read before it can be found only under retired postfixes, whatever was interleaved |
| EtagRuns.NoRepeat | vstutils/models/base.py:291-326 | two reads of a row answer different values when an invalidation covering it began after the first and ended before the second, in every interleaving with losses |
| StoredPages.CurrentMeansShown | vstutils/models/base.py:291-326 | when every touching commit since the rendering is noticed by an invalidation between tag and check, a check that finds the tag current finds the data as shown, in every interleaving of commits and cache accesses |
| StoredPages.UnnoticedExample | vstutils/models/base.py:291-326 | a tag read between invalidation and commit that is still current at the check |
| EtagRuns.OverlappingReadMayRepeat | vstutils/models/base.py:296-305 | a read that overlaps the invalidation may still answer the old value |
| EtagRuns.UninterruptedRead | vstutils/models/base.py:296-305 | when nothing is interleaved, the two accesses of a read leave and answer what the read in one step does |
| EtagRuns.UninterruptedInvalidation | vstutils/models/base.py:307-326 | and the two accesses of an invalidation leave what it leaves in one step |
| EtagValue.GetEtagValue | vstutils/api/base.py:560-589 | the etag of a model with versions (version, language, user, session, hashed with the release when about a user or session), of one without, and of a collection, by recursion |
| EtagValue.EtagsEqualIff | vstutils/api/base.py:569-589 | two returned etags, hashed or not, are equal exactly when the versions are and the senders agree on every dependency or clash |
| EtagValue.EtagIsVersionAndContext | vstutils/api/base.py:569-589 | when no user id is a session key, exactly when the versions are and the senders agree |
| EtagValue.WhatIsHashed | vstutils/api/base.py:560-589 | the etag written out: for each dependency alone, with and without a session, without versions, and for collections |
| EtagValue.NewReleaseNewEtag | vstutils/api/base.py:562-589 | a new release changes every hashed etag, and those of models without versions |
| EtagValue.CollectionsEqualIff | vstutils/api/base.py:564-568 | the etags of two collections are equal exactly when those of their members are, one by one |
| EtagValue.ClashExample | vstutils/api/base.py:576-583 | two senders that agree on nothing and get one etag |
| EtagHeader.CheckRequestEtag | vstutils/utils.py:1552-1570 | no header means no condition; else the answer is whether the header names the value, with or without quotes on either and weakness mark; a bare mark or an empty etag is an error |
| EtagHeader.CheckEtag | vstutils/api/base.py:666-690 | 304 exactly for reads whose header names the current value, 412 exactly for checked writes whose header does not, an index error exactly when a condition cannot be compared |
| EtagHeader.OwnHeaderNames | vstutils/utils.py:1557-1566 | the header a response carried names the current value exactly when it is that value |
| HttpCache.ConditionsDecide | vstutils/api/base.py:666-701 | 304 exactly when the tag is current for the resource and context, refusal exactly when it is not; a refused write writes nothing |
| HttpCache.SaveFollows | vstutils/models/base.py:279-286 | a save or delete of a row or a related instance makes no earlier version current again, and touches what it covers |
| HttpCache.WhatIsTouched | vstutils/models/base.py:270-286 | a related instance touches every list and row, an instance of the model the lists and its own row |
| HttpCache.RelatedSaveInvalidates | vstutils/models/base.py:307-326 | after a related save no version drawn before is current for the table or any row |
| HttpCache.OwnSaveInvalidates | vstutils/models/base.py:307-326 | after a save of a row none is for the table and that row, and the other rows keep theirs |
| HttpCache.RelatedSaveIsSeen | vstutils/api/base.py:666-701 | after a related save every page is sent anew, whatever tag it is asked for with |
| HttpCache.OwnSaveIsSeen | vstutils/api/base.py:666-701 | after a save of a row the lists and that row are sent anew, and a 304 for another row stays one |
| HttpCache.HandleFollows | vstutils/api/base.py:666-701 | after any request, a version drawn earlier is current only if it was and nothing the resource shows was written |
| HttpCache.RunFollows | vstutils/api/base.py:666-701 | the same over every run of requests and other events |
| HttpCache.NoLostUpdate | vstutils/api/base.py:666-690 | a write accepted with If-Match finds the row exactly as it was when the response carrying the tag was made, in one step |
| HttpCache.LateTagIsSafeIff | vstutils/api/base.py:692-696 | a page whose tag is read after its body is safe to store iff no touching write came in between |
| HttpCache.LateTagGuardsIff | vstutils/api/base.py:666-696 | a write made from such a page with its tag in If-Match is accepted only over the row it shows iff no touching write came in between |
| HttpCache.CheckThenWriteIff | vstutils/api/base.py:666-701 | a write whose tag passed the check lands on the row its page shows iff no touching write came between check and save |
| HttpCache.TwoWritersExample | vstutils/api/base.py:698-702 | two writers that both pass the check |
| HttpCache.LateTagExample | vstutils/api/base.py:692-696 | a concrete page that is safe for neither |
| Transactions.GuardedRun | vstutils/api/endpoint.py:317-333 | whatever is saved, committed, rolled back, read or lost, a version stays current only while nothing touching is committed or saved |
| Transactions.TransactionIsItsSaves | vstutils/api/endpoint.py:317-333 | a committed transaction leaves what its saves leave without it, a rolled back one only their versions |
| Transactions.CurrentTagIsSafeIff | vstutils/api/endpoint.py:477-481 | a current tag makes right 304 answers and guards writes iff the page shows what is committed and no open transaction has saved a touching write |
| Transactions.PageIsSafeIff | vstutils/api/endpoint.py:477-481 | the same for a page whose tag is read any number of steps after its body |
| Transactions.InsidePageIsSafeIff | vstutils/api/endpoint.py:477-487 | a page rendered and tagged inside a transaction is safe once that has ended iff it committed or had saved nothing touching the page, and no other open one has |
| Transactions.PhantomExample | vstutils/api/endpoint.py:477-487 | a page of a rolled back transaction that is answered 304 and lets a write pass |
| Transactions.OpenTransactionExample | vstutils/models/base.py:279-281 | a page tagged while a bulk POST is open: answered 304, and its edits accepted, without the write |
| ConditionalWrites.AcceptedIffUnchanged | vstutils/api/base.py:666-690 | when nothing expires, a conditional write is accepted iff no write touched the row since its tag was made |
| ResponseCache.SubstitutionIsExact | frontend_src/vstutils/bulk.ts:150-153 | sending the stored tag and substituting on 304 gives the response of an unconditional request, and the same server state |
| ResponseCache.StoreFits | frontend_src/vstutils/bulk.ts:150-164 | what a batch stores fits the server: the page it would render whenever the tag is current |
| ResponseCache.FitsAfterRollback | vstutils/api/endpoint.py:477-487 | a page that fits after some operations of a transaction that had not touched it fits after the rollback |
| ResponseCache.FailingStatusUndoes | vstutils/api/endpoint.py:477-500 | a page with status 400 or more or a refused write undoes the rows of a whole transactional batch; without one it stays done |
| ResponseCache.WhatStepsLeave | frontend_src/vstutils/bulk.ts:107-172 | a batch that fails after the server worked on it leaves the caches, a refused one everything; dropped and unwritable entries |
| ResponseCache.EveryRunIsGood | frontend_src/vstutils/bulk.ts:124-164 | in every run without phantoms what is stored, and what batches in flight found, is the page the server would render while its tag is current |
| ResponseCache.CachedEqualsUncached | frontend_src/vstutils/bulk.ts:119-167 | in every run of browsers, overlapping, transactional, failing and refused batches, writes and losses, in which no rolled back batch left a phantom, each position gets the very response sending without the cache would have got, exactly but for 304 answers to conditions of the caller's own |
| ResponseCache.PhantomIsServed | frontend_src/vstutils/bulk.ts:113-162 | a rolled back batch after which reading a row brings a page that never was |
| ResponseCache.ResentIsBareIff | frontend_src/vstutils/bulk.ts:145-153 | a request object sent again when nothing is stored for it gets a bare 304 iff its tag is current |
| ResponseCache.Backend.Bulk | vstutils/api/endpoint.py:489-500 | the server works through a bulk request operation by operation |
| ResponseCache.BrowserCache.Prepare | frontend_src/vstutils/bulk.ts:124-147 | the caller's requests made conditional in place, and the stored responses by position |
| ResponseCache.BrowserCache.Accept | frontend_src/vstutils/bulk.ts:150-164 | substituted responses and the stored pages; responses beyond the requests are handed through |
| ResponseCache.BrowserCache.SendBulkCached | frontend_src/vstutils/bulk.ts:89-167 | the whole exchange, server, requests, responses and cache; an error or too few responses fail it and leave the cache; a refused request succeeds with no list and leaves the cache |
| DeepTree.AccumulatorIsLeastClosed | vstutils/models/queryset.py:178-194 | the recursion, which terminates on every table, adds to the accumulator the least closed set |
| DeepTree.JoinFollowsEdges | vstutils/models/queryset.py:157-169 | one round of the recursive query is one step along the relation |
| DeepTree.CteIsLeastClosed | vstutils/models/queryset.py:157-174 | the recursive query computes the least closed set over the direct relatives |
| DeepTree.CteIsReachability | vstutils/models/queryset.py:157-174 | it is what can be reached by at least one edge |
| DeepTree.FallbackIsReachability | vstutils/models/queryset.py:178-194 | the accumulator finds what can be reached by any number of edges |
| DeepTree.BackEndsAgree | vstutils/models/queryset.py:157-202 | equal with the current rows; without, the fallback is the query minus the start rows, and they agree iff no start row is reached from one |
| DeepTree.BackEndsDifferOnCycle | vstutils/models/queryset.py:196-202 | a cycle on which they differ |
| DeepTree.DirectRelatives | vstutils/models/queryset.py:157-208 | whose parent a row is finds it as a child and is found by it as a parent, with all that is related to it |
| DeepTree.IsClosureOperator | vstutils/models/queryset.py:204-208 | with the current rows: extensive, monotone, idempotent |
| DeepTree.ChildrenAndParentsAreDual | vstutils/models/queryset.py:204-208 | b is a deep child of a iff a is a deep parent of b, in both back ends |
| Locks.StepKeepsProtectionIff | vstutils/utils.py:996-1002 | one step keeps every holder the owner of the live entry iff it is disciplined |
| Locks.ProtectedThroughoutIff | vstutils/utils.py:1073-1102 | the same for whole runs, and then at most one client ever holds the lock |
| Locks.NewcomerStaysOutIff | vstutils/utils.py:1073-1102 | after a step from a protected state, a newcomer gets in beside a holder iff the step broke the discipline |
| Locks.UnbreakableThroughoutIff | vstutils/utils.py:1073-1102 | over a whole run, no newcomer could at any moment break exclusion iff every step respects the discipline |
| Locks.OnlyTheOwnerBecomesHolder | vstutils/utils.py:1079-1082 | in any state, reading back makes a holder only of the owner of the live entry |
| Locks.SecondReleaseBreaksExclusion | vstutils/utils.py:1093-1102 | releasing twice lets two clients hold the lock |
| Locks.EntriesAreTakenAndProlonged | vstutils/utils.py:996-1002 | adding takes the entry exactly when nobody has it; prolonging extends whoever has it |
| Locks.FreeKeyIsWon | vstutils/utils.py:1078-1082 | a free key that is left alone during the sleep is won |
| Locks.HeldKeyIsNotWon | vstutils/utils.py:1078-1082 | a key that is held is not |
| Locks.SleepDecides | vstutils/utils.py:1078-1082 | what deleting, expiry, touching and adding by others during the sleep do to it, exactly |
| Locks.LocksCache.AddKey | vstutils/utils.py:996-998 | stores the payload for its lifetime exactly when the key is missing or expired |
| Locks.LocksCache.TouchKey | vstutils/utils.py:1000-1002 | gives whatever entry is live a new lifetime, and does nothing without one |
| Locks.Lock.Acquire | vstutils/utils.py:1073-1084 | the retry loop with others using the cache during its sleeps: it gets the lock exactly when some round begun in time finds the key free and its own entry after the sleep, at once when the key is free and left alone; then it holds the live entry, otherwise it has no id; other keys stay |
| Locks.Lock.Release | vstutils/utils.py:1096-1099 | deletes the key when an id is set or the release is forced, and nothing else |
| Scheduler.OrderedStep | vstutils/celery_beat_scheduler.py:57-82 | ticks, closes and collections of punctual instances keep the holder's entry its own, with exactly its own lease |
| Scheduler.OneInstanceExecutes | vstutils/celery_beat_scheduler.py:66-76 | whoever executes is the only holder within its lease; between executions by two instances the first one closed |
| Scheduler.ExtendsBeforeExecuting | vstutils/celery_beat_scheduler.py:75-76 | every execution follows an extension of the lease of its own, made after whatever the instance executed before |
| Scheduler.NewcomerGetsReady | vstutils/celery_beat_scheduler.py:57-76 | an instance that finds the lock free gets, by its ticks in order, to its first task with a lease of 120 |
| Scheduler.TaskAfterTask | vstutils/celery_beat_scheduler.py:75-76 | the next task takes another extension, of 120 from then on |
| Scheduler.LateCollectionFreesTheLock | vstutils/utils.py:1096-1102 | collecting the object of a closed instance deletes the entry of whoever holds the lock by then |
| Overdue.Scheduler.DiscardOverdueTasks | vstutils/celery_beat_scheduler.py:34-54 | the heap keeps its size, only due events are taken, none that is after one not due, and all are put back renewed; when, among the events in play, due agrees with heap order and renewed events lie in the future, exactly the due events are taken, once, and none is left |
| Overdue.RenewedOne | vstutils/celery_beat_scheduler.py:46-53 | a discarded event keeps its priority and gets the reserved entry at the time computed from it and the next run time |
| Overdue.TakenIsEarlier | vstutils/celery_beat_scheduler.py:39-53 | what is taken is earlier than any event not due, or as early and of no later priority |
| Overdue.TimeAgreesWithOrder | vstutils/celery_beat_scheduler.py:39-43 | due agrees with heap order when entries are due exactly from the time of their event on |
| Overdue.OverdueHeap | vstutils/celery_beat_scheduler.py:39-53 | a heap with overdue events that meets both conditions |
| Overdue.NoneDueMeansExact | vstutils/celery_beat_scheduler.py:39-53 | balanced books and no due event left mean that the discarded are the due ones |
| Endpoint.VariablesAreLatest | vstutils/api/endpoint.py:335-336 | a variable means the inner reply that was bound to it last |
| Endpoint.BatchIsOneByOne | vstutils/api/endpoint.py:76-104 | a bulk request gives the results, and leaves the database and the notifications, of executing its operations one by one with references filled in |
| Endpoint.OperationTakesEffect | vstutils/api/endpoint.py:306-337 | operation i has the effect of its inner request on what the operations before left, queues its messages, binds its variable and gives the represented reply or a 500; an invalid one does nothing |
| Endpoint.ReferencesComeFromBefore | vstutils/api/endpoint.py:438-500 | operation i is filled in from exactly the results before it and the latest bindings; result i is its own, and represents what it binds |
| Endpoint.EndpointViewSet.OperateOne | vstutils/api/endpoint.py:438-453 | one operation, valid or not, raising or not |
| Endpoint.EndpointViewSet.Put | vstutils/api/endpoint.py:489-505 | operations run one after the other, stopping at the first failure when none is allowed |
| Endpoint.EndpointViewSet.Post | vstutils/api/endpoint.py:477-487 | all succeeded and everything is done; or the database is as before, no notification is left, and the results end at the first failing operation |
| BulkBatching.EveryRunIsSound | frontend_src/vstutils/bulk.ts:175-208 | in every run batches concatenate to call order, collected calls have one armed timer, and calls are settled by their position's share |
| BulkBatching.EveryCallHasOnePlace | frontend_src/vstutils/bulk.ts:175-208 | every call is collected, in flight or answered, in exactly one position; it is settled iff it was answered with a list or an error, with the response at its own position, the complaint about too few, or the error |
| BulkBatching.UnlistedIsForever | frontend_src/vstutils/bulk.ts:107-116 | the calls of a batch answered with JSON that has no length are never settled |
| BulkBatching.RefusedExample | frontend_src/vstutils/bulk.ts:107-186 | the run of a call that is refused, whatever comes later |
| BulkBatching.SettledOnce | frontend_src/vstutils/bulk.ts:180-187 | a settled call keeps what it got |
| BulkBatching.BulkApi.BulkApiFetch | frontend_src/vstutils/bulk.ts:190-208 | a call clears the pending timer, is collected and arms a new one |
| BulkBatching.BulkApi.SendCollectedBulks | frontend_src/vstutils/bulk.ts:175-178 | a firing timer sends all that is collected as one batch |
| BulkBatching.BulkApi.Receive | frontend_src/vstutils/bulk.ts:179-187 | an answer resolves call i with response i; too few responses or an error reject them all, extra responses change nothing, no list settles nothing |
| BulkBatching.ReplyGives | frontend_src/vstutils/bulk.ts:179-187 | in any sound state, what each call of a batch gets from its reply, by position |
| AggregatedQueries.PlainKeysAgree | frontend_src/vstutils/AggregatedQueriesExecutor.js:44-68 | without commas, one query with the limit finds each key that is there |
| AggregatedQueries.AggregatedFindsAllIff | frontend_src/vstutils/AggregatedQueriesExecutor.js:44-75 | one query finds every key that is there, on every table, iff no key contains a comma |
| AggregatedQueries.AggregatedEqualsSingleIff | frontend_src/vstutils/AggregatedQueriesExecutor.js:44-75 | it answers every key like the query for that key alone, on every table, iff all keys contain commas or there are no more different tokens than keys |
| AggregatedQueries.StarvedExample | frontend_src/vstutils/AggregatedQueriesExecutor.js:44-45 | a key without a comma that is cut off by the limit |
| AggregatedQueries.EndKeepsSound | frontend_src/vstutils/AggregatedQueriesExecutor.js:47-74 | every promise stays in exactly one place: waiting, in flight, or settled |
| AggregatedQueries.EndSettles | frontend_src/vstutils/AggregatedQueriesExecutor.js:47-74 | a promise of an answered batch gets an instance with its key if one came, not found if none did, or the error |
| AggregatedQueries.AggregatedQueriesExecutor.Query | frontend_src/vstutils/AggregatedQueriesExecutor.js:21-32 | a new promise waits under its key for the next execution |
| AggregatedQueries.AggregatedQueriesExecutor.Execute | frontend_src/vstutils/AggregatedQueriesExecutor.js:38-45 | one request for all keys asked so far; later ones are kept |
| AggregatedQueries.AggregatedQueriesExecutor.Finish | frontend_src/vstutils/AggregatedQueriesExecutor.js:47-75 | each promise of the batch is settled with the share of its key, nothing else changes |
| AggregatedQueries.FetchedLikeOneByOne | frontend_src/vstutils/fetch-values.ts:47-79 | at every position: the instance, the placeholder, or the untouched value, when no key contains a comma |
| AggregatedQueries.FetchedOfFailure | frontend_src/vstutils/fetch-values.ts:47-79 | when the request fails every key gets the placeholder with its own text |
| AggregatedQueries.FetchedLikeAloneIff | frontend_src/vstutils/fetch-values.ts:47-79 | every position gets what fetching that value alone would give, on every table, iff no key can be starved |
| AggregatedQueries.FetchPKs | frontend_src/vstutils/fetch-values.ts:47-79 | the executor driven for one list gives each position its share of the one answer |
| MultiKeySort.SortKeepsSorted | vstutils/tools.py:11-16 | sorting by one more column what is sorted by the others |
| MultiKeySort.SortAllIsTheLexicographicSort | vstutils/tools.py:4-21 | one stable sort per column is the only rearrangement sorted by all columns, in their directions, that keeps ties in order |
| MultiKeySort.OneColumnSorts | vstutils/tools.py:9-16 | by one column the values ascend, and descend with a leading minus |
| MultiKeySort.TwoColumnsSort | vstutils/tools.py:9-16 | by two the first decides, and among equal values the second |
| MultiKeySort.CompleteIff | vstutils/tools.py:11-16 | the KeyError, said of the rows and the name without its minus |
| MultiKeySort.SortByColumns | vstutils/tools.py:4-21 | the list sorted in place, exactly reversed on demand; the columns reversed; an error iff a row lacks a column |
| CustomQuery.RowsAreTheAccepted | vstutils/models/custom_model.py:141-170 | before slicing a queryset has what it accepts of the data, sorted as requested with ties in order, or the reverse of that |
| CustomQuery.FilterAccepts | vstutils/models/custom_model.py:53-90 | what a filter for one value accepts in each format, said of the row |
| CustomQuery.ListFilterAccepts | vstutils/models/custom_model.py:53-90 | what a filter for a list accepts, and unknown formats |
| CustomQuery.PkIsTheKey | vstutils/models/custom_model.py:64-65 | pk names the key column, in filters and excludes of every format |
| CustomQuery.AllOrNone | vstutils/models/custom_model.py:53-90 | everything is accepted without filters, nothing after none() |
| CustomQuery.NumberedFromOne | vstutils/models/custom_model.py:154-156 | automatic keys count from 1 in the order of the data |
| CustomQuery.OrderedByKey | vstutils/models/custom_model.py:158-168 | ordering by pk sorts by the key column, and by -pk downwards |
| CustomQuery.KeyErrorIff | vstutils/models/custom_model.py:164-168 | iterating raises exactly when an accepted row lacks the column sorted by |
| CustomQuery.SliceIsWindow | vstutils/models/custom_model.py:171-173 | both marks of a slice, beyond the end and crossing |
| CustomQuery.SlicesMeet | vstutils/models/custom_model.py:171-173 | slices that meet make up everything |
| CustomQuery.ReverseIsExact | vstutils/models/custom_model.py:162-173 | reverse yields the exact reversal, with or without ordering |
| CustomQuery.FiltersCompose | vstutils/models/custom_model.py:197-207 | filters that do not disagree about a lookup commute and are a conjunction |
| CustomQuery.SameLookupOverwrites | vstutils/models/custom_model.py:203-204 | a second filter on the same lookup replaces the first |
| CustomQuery.FiltersConjoinIff | vstutils/models/custom_model.py:53-90 | two chained filters select what both select, whatever the rows, iff by column and value what passes the merged tests passes the first |
| CustomQuery.FiltersConjoinIffTightened | vstutils/models/custom_model.py:53-90 | with usual values and one lookup per column, iff where both test a lookup the second asks for no more: the same value, a subset, a longer string |
| CustomQuery.DisagreeingFilters | vstutils/models/custom_model.py:203-204 | two different values for one exact lookup: the row with the second is selected |
| CustomQuery.HiddenDisagreement | vstutils/models/custom_model.py:53-90 | a disagreement that another lookup on the column hides |
| CustomQuery.ExcludesConjoinIff | vstutils/models/custom_model.py:53-90 | two chained excludes leave out what either leaves out iff one is empty or, by column and value, either alone stops what the merged one stops |
| CustomQuery.ExcludesOnOneLookup | vstutils/models/custom_model.py:53-90 | on one lookup, iff the first asks for no more than the second |
| CustomQuery.ExcludesOnTwoColumns | vstutils/models/custom_model.py:53-90 | on two columns, a row only the first leaves out comes back |
| CustomQuery.ExcludesMerge | vstutils/models/custom_model.py:53-90 | a row survives two excludes iff it survives either |
| CustomQuery.Query.Clone | vstutils/models/custom_model.py:47-51 | a copy with filter dictionaries of its own |
| CustomQuery.Query.FilterOrExclude | vstutils/models/custom_model.py:197-207 | the clone's dictionary is updated in place; the parent is untouched |
| CustomQuery.Query.Iterate | vstutils/models/custom_model.py:141-173 | numbering, filtering, ordering and slicing give the rows of the state |
| CustomQuery.Query.First | vstutils/models/custom_model.py:214-215 | the first row, if any |
| CustomQuery.Query.Last | vstutils/models/custom_model.py:211-212 | the final row, if any; an error once a slice was taken |
| Crontab.ColumnAccepted | vstutils/api/fields.py:1682-1707 | the recursive check, which terminates, accepts a column exactly when it derives from the grammar |
| Crontab.NumberAccepted | vstutils/api/fields.py:1701-1707 | a number is accepted exactly in the range of its column; Sunday is 0, not 7 |
| Crontab.RangesOfColumns | vstutils/api/fields.py:1674-1680 | the numbers of each of the five columns |
| Crontab.PlacesOfColumns | vstutils/api/fields.py:1709-1727 | five columns are accepted as minute, hour, day, month and weekday in this order |
| Crontab.RangeOfNumbers | vstutils/api/fields.py:1697-1699 | a range is of two accepted numbers, in any order |
| Crontab.StarWithSteps | vstutils/api/fields.py:1692-1696 | steps are digits and at least one, and otherwise complained of |
| Crontab.ListOfTwo | vstutils/api/fields.py:1687-1691 | a list is accepted when its items are |
| Crontab.FieldAcceptsAndNormalises | vstutils/api/fields.py:1709-1727 | at most five columns, each of its grammar; the value has five, the given ones unchanged, and normalises to itself |
| ImageFit.BestIsTheLargestScaling | vstutils/api/validators.py:55-64 | the scaling before rounding is proportional and the largest within the maxima |
| ImageFit.BestReachesALimit | vstutils/api/validators.py:55-64 | no limited side exceeds its maximum and one reaches it |
| ImageFit.Padded | vstutils/api/validators.py:69-84 | padding at most one side up to its minimum meets every limit; its two margins differ by at most one |
| ImageFit.ResizeImageFromTo | vstutils/api/validators.py:40-84 | the rounded largest scaling; the first side that breaks its limit, and no other, is padded to its minimum, which meets every limit when they are consistent; it fails exactly when a side rounds to zero or is divided by zero |

## Left out

- HttpCache.NoLostUpdate: body and tag of a response are made in one step, and so are check and save of a write; `LateTagGuardsIff`, `CheckThenWriteIff` and `Transactions.PageIsSafeIff` say exactly when the steps apart are as good.
- ConditionalWrites.AcceptedIffUnchanged: check and save of a write are one step, as in `NoLostUpdate`.
- ResponseCache.CachedEqualsUncached: each request of a batch is one step of the server, as in `NoLostUpdate`, and no other browser reads while a transactional batch is open (`Transactions` says what happens then).
- ResponseCache.BrowserCache.SendBulkCached: the stopping and undoing of a transactional bulk request on the server, which is in the step `Transact` of the runs.
- AggregatedQueries.AggregatedEqualsSingleIff: filter fields are strings. With an integer field one malformed key makes the whole request fail, although the others would be found singly; and a lone empty key is not filtered at all.
- The order of a set of models in a collection's etag, which may differ between processes.
- Several cached models in one cache, and the spelling of the cache keys.
- The moment between an autocommitted save and its signal, and what a reader sees inside its own transaction.
- Whole requests and caches over the single cache accesses of `EtagRuns`: `StoredPages` is about one page and one check.
- Paths and queries of bulk requests as text; a request carries its resource, and requests with the same cache key name the same resource.
- Many-to-many parents and sliced querysets in the tree code.
- `force_release=True` in the lock protocol, and prolonging with another lifetime than the lock's in the objects (the protocol has any).
- AcquireLockException's message; a retry loop that is still running is cut where the given schedule of sleeps ends.
- Overdue.Scheduler.DiscardOverdueTasks: whether an entry is due does not change while the loop runs.
- populate_heap, the sync counter and the inherited tick of the beat scheduler; the heap is a priority queue.
- Template parsing, paths, versions and cookies of the bulk endpoint; filling in references is any function of the earlier results and variables.
- The threaded branch of the endpoint for methods other than POST and PUT.
- Transactions of single operations; what an operation does to the database, failing or not, is arbitrary.
- Timing beyond order in the client: a timer fires at any time after it was set.
- fetchArrayFieldValues, fetchDynamicFieldValues and fetchRelatedListFieldValues: they distribute the same lookups over instances.
- Values of sort columns other than integers, field conversion and upper case (parameters of the model), tests whose types do not fit (a TypeError), slicing a slice again, `only`, `defer` and `values`.
- Digits outside ASCII in crontab steps.
- Pixels, infinite limits and float rounding in image resizing.
