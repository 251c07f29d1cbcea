# Document AI protocols and computations, in Dafny

This project models the parts of the Document AI API and its document viewer whose correctness
rests on more than one function, and proves what they promise. Each module is one file of the
same name; `Common` holds what several of them share.

**Documents and batches.** `Processing` has the statuses. `BatchProtocol` is a transition
system: the document rows of one batch, the batch row, and any number of workers (classifiers,
initial upserts, claims, STARTED writes, the reaper, deletes) that interleave between calls.
Each DynamoDB call is one atomic step, and a swallowed failure of a call is a step too. The
terminal write, the metrics message, the increment, the re-query and the finalisation are
separate steps of one worker. A history that no step reads records the decisions. `BatchLedger`
proves what holds in every run. `BatchSafety` and `BatchTheorems` prove the rest for orderly
runs: the two unguarded writers, the initial upsert and the STARTED write, meet only
non-terminal documents, one upsert per document is open at a time, and no other terminal write
is made to a document while its upsert is open. `BatchTheorems.SafeRunIff` shows that this
hypothesis is exact: a run keeps the invariant throughout if and only if it is orderly.
`BatchCounterexamples` gives runs that are not. The counter is a lower bound, not a count:
increments made while the batch is not PROCESSING are dropped, and some initial statuses never
increment; `CompletionIsExact` says by how much it falls short. `BatchClaims` is about claims.
`BatchTables` has the calls as methods that update the rows in place, and their agreement with a
worker that runs alone.

**Multi-page builds.** `BuildProtocol` is the same for one build: the metadata row with its
`submittedAt` lock, the page rows, the page files, and any number of submits, deletes and
uploads. A call may raise before it took effect or after. `BuildLock` proves the lock,
`BuildPages` the page numbers, `BuildTraces` whose bytes a page's file holds and which pages
keep a stamp, `BuildCounterexamples` shows what fails, and `BuildTables` has the calls as
methods. Three things the code does differ from what is written beside it, each with the exact
condition under which it shows. An upload to S3 that fails after the lock was taken is raised as
an HTTP error and re-raised before the rollback, so the lock stays and the user cannot retry
(`LockIsFreeIff`, `FailureRollsBackIff`). A rollback leaves the stamps on the pages, so the
build still reads as submitted (`DeleteIsRefusedIff`). An upload stores its bytes before the
conditional write that may refuse it (`PageHoldsItsBytesIff`).

**Boxes.** `BoxMerging` and `BoxGroups` model the viewer's greedy merging of overlapping field
boxes.

**Pages of a query.** `Pagination` models the filtered query loop against any way DynamoDB may
cut an index into pages.

**Field trees.** `FieldTree` is the JSON tree with its dotted leaf names, `FieldReader` the
reader of extraction output, `FieldAgreement` its agreement with two later computations, and
`FieldFlatten` the viewer's flattening. A key is plain when it is not empty and has no dot;
`FieldAgreement.KeysMustBePlain` shows that both are needed.

**Blur.** `BlurDetection` models the verdict over four quadrants.

**Audit.** `AuditLog` is the bounded dictionary, `AuditSampling` the counting and sampling of
repeated events.

**Costs.** `CompareCost` models the two breakdowns of a comparison's cost in exact arithmetic,
with dictionaries in insertion order, and `CompareAmounts` states every amount in them from the
recorded entries, the prices and the rates alone. Looking up token prices in the `textract` or `bda` row
raises, so a model recorded under such a name makes the request fail instead of making the
totals differ.

**Names.** `NameCase` models the snake and camel case conversions, each regular expression as
the left-to-right scan it performs. Two one-letter words side by side do not survive the round
trip: `a_b_c` comes back as `a_bc`.

**Crops and rules.** `ImageCrop` models the crop to a detected box and the loops that shrink an
image for the detector; `ExtractionRules` the two computations of missing required fields.

## Model

| member | source | states |
|---|---|---|
| Processing.IsClassified | documentai-api/src/documentai_api/constants/processing.py:80-145 | The two status lists the source writes out separately are complements: what is classified is exactly what a guarded terminal write may no longer overwrite. |
| BatchTheorems.CounterIsALedger | documentai-api/src/documentai_api/utils/batch_operations.py:122-152 | In every run, with no hypothesis: `resolvedCount` is the number of increments that landed; for each document the decisions made are exactly those counted, dropped, still owed by one worker, or of the kind that never increments; so the counter exceeds the decided documents by at most the repeated decisions. |
| BatchLedger.StepLedger | documentai-api/src/documentai_api/utils/batch_operations.py:133-179 | The ledger is kept by every step of every worker, request and failed call. |
| BatchTheorems.FinalisedAtMostOnce | documentai-api/src/documentai_api/utils/batch_operations.py:174-179 | In every run at most one finalisation lands, and after it the batch is never PROCESSING again. |
| BatchTheorems.FailedByItsRequest | documentai-api/src/documentai_api/routers/batch.py:200-262 | In every run a batch that its upload request failed is FAILED for good, and a batch is opened only when every file has its row. |
| BatchTheorems.CounterIsSafe | documentai-api/src/documentai_api/utils/batch_operations.py:133-152 | In every orderly run the counter never exceeds the decided documents, at most one increment sees it reach the total, and any worker that re-queries or finalises does so with every file of the batch decided. |
| BatchTheorems.CompletionIsExact | documentai-api/src/documentai_api/utils/batch_operations.py:143-152 | How far the counter falls short: by the increments dropped while the batch was not PROCESSING and the decisions that never increment; a fully decided batch reached its total exactly when there were none of either. |
| BatchTheorems.RequeryCountsFailures | documentai-api/src/documentai_api/utils/batch_operations.py:157-165 | The re-query counts exactly the documents decided FAILED or TIMED_OUT and not deleted since; upserts still unstored do not disturb it. |
| BatchTheorems.UpsertCountsEarlyIff | documentai-api/src/documentai_api/pipeline/document_lifecycle.py:410-416 | Of the statuses an initial upsert may choose exactly the password-protected and the sampled-out are counted before they are stored. |
| BatchTheorems.FinalStatusIsRight | documentai-api/src/documentai_api/utils/batch_operations.py:157-179 | A finalised batch has one verdict, and it is that of a re-query at some earlier step at which every document was decided and no outcome has changed since: COMPLETED if and only if no document was then decided FAILED or TIMED_OUT and not deleted, FAILED if and only if every one was, PARTIAL if and only if some but not all were. The batch row holds it unless the upload request failed the batch afterwards. |
| BatchSafety.StepSafe | documentai-api/src/documentai_api/pipeline/document_lifecycle.py:97-109 | Every orderly step keeps the safety invariant: one decision per document, stored terminal statuses are the decided ones or DELETED, at most one open upsert per document. |
| BatchTheorems.SafeStepIff | documentai-api/src/documentai_api/pipeline/document_lifecycle.py:97-109 | From a safe state a step keeps the invariant if and only if it is orderly: every STARTED write on a terminal row, every upsert begun on a terminal row or inside another, and every guarded write inside an open upsert breaks it. |
| BatchTheorems.SafeRunIff | documentai-api/src/documentai_api/pipeline/document_lifecycle.py:410-520 | A run keeps the invariant throughout if and only if it is orderly, so the hypothesis is exact. |
| BatchTheorems.DecidedOnceIff | documentai-api/src/documentai_api/pipeline/document_lifecycle.py:410-440 | Which of those steps decide a document a second time in the step itself, the others leaving that to a later one: exactly the guarded write that lands inside an early-credited upsert and the early-credited decision on a terminal or already credited document. |
| BatchTheorems.TerminalIsStable | documentai-api/src/documentai_api/constants/processing.py:147-152 | One step of an orderly run leaves a terminal row as it is or marks it DELETED. |
| BatchTheorems.OnlyTheFirstWriteLands | documentai-api/src/documentai_api/classifiers/document_classification.py:50-65 | Of any number of guarded writers of one document only the first lands; later the row holds its status or DELETED, and its metrics message and its increment happen at most once each. |
| BatchTheorems.DeleteHitsOnlyClassified | documentai-api/src/documentai_api/routers/documents.py:382-422 | The delete request checks in one call and writes unconditionally in another, yet never overwrites a document that is still processing. |
| BatchClaims.ClaimsExclude | documentai-api/src/documentai_api/pipeline/document_lifecycle.py:122-145 | Two claims of one document from the same status succeed only if an initial upsert stored that status in between; no hypothesis. |
| BatchClaims.OnlyStoresRestore | documentai-api/src/documentai_api/pipeline/document_lifecycle.py:486-520 | The only step that gives an existing row a claimable status is an initial upsert storing it. |
| BatchCounterexamples.EarlyCreditRace | documentai-api/src/documentai_api/pipeline/document_lifecycle.py:410-416 | A run in which the early increment of a password-protected document races with the reaper: one document is counted twice and a batch of two is finalised with the other untouched. |
| BatchCounterexamples.StartedReopens | documentai-api/src/documentai_api/pipeline/document_lifecycle.py:97-109 | A run in which the unguarded STARTED write reopens a reaped document, whose result is then counted again: COMPLETED with one document untouched. |
| BatchCounterexamples.UpsertAfterTerminal | documentai-api/src/documentai_api/utils/ddb.py:558-643 | A run in which a second initial upsert counts a reaped document again. |
| BatchCounterexamples.DeclinedWhileUploading | documentai-api/src/documentai_api/utils/batch_operations.py:143 | A run in which a consent decline during UPLOADING drops its increment: every document decided, no worker left, the batch PROCESSING with nothing counted. |
| BatchTables.Tables.CountFailedJobs | documentai-api/src/documentai_api/utils/batch_operations.py:157-165 | The loop over the re-queried jobs counts exactly the FAILED and TIMED_OUT rows. |
| BatchTables.Tables.IncrementResolvedCount | documentai-api/src/documentai_api/utils/batch_operations.py:122-179 | The whole new state of the rows after an uninterrupted increment: nothing unless PROCESSING; one more; and when that is the last, COMPLETED if and only if no row is FAILED or TIMED_OUT, FAILED if and only if as many are as the batch has files, which with one row per file means all of them, and PARTIAL otherwise. |
| BatchTables.Tables.SetProcessingStatusStarted | documentai-api/src/documentai_api/pipeline/document_lifecycle.py:122-145 | A claim succeeds exactly when the row has the expected status, then makes it STARTED and nothing else, and can no longer be made. |
| BatchTables.Tables.DeleteDocument | documentai-api/src/documentai_api/routers/documents.py:382-422 | Not found, refused while non-terminal, or DELETED in that row alone; a document still processing is never touched. |
| BatchTables.Tables.WriteTerminalStatus | documentai-api/src/documentai_api/classifiers/document_classification.py:50-65 | The write lands exactly when the row is absent or non-terminal; the row, the metrics queue and the batch row change as stated, or nothing does. |
| BatchTables.AloneClaimAgrees | documentai-api/src/documentai_api/pipeline/document_lifecycle.py:122-145 | A worker of the transition system that claims a document changes the rows as the method does, and after a claim that won, no claim from any claimable status changes them again. |
| BatchTables.ClaimFrom | documentai-api/src/documentai_api/jobs/document_processor/main.py:473-507 | A claim may expect any of three statuses and no other, and changes the row exactly when it has that one. |
| BatchTables.AloneUpsertAgrees | documentai-api/src/documentai_api/pipeline/document_lifecycle.py:410-520 | An initial upsert that nobody interrupts: a password-protected or sampled-out document is counted before its row is stored, no other status is, and one metrics message is queued exactly for the terminal statuses. |
| BatchTables.AloneDeleteAgrees | documentai-api/src/documentai_api/routers/documents.py:382-422 | A delete request that nobody interrupts between its check and its unconditional write changes the rows as the method does: only a classified document is touched, and nothing is decided, counted or queued. |
| BatchTables.AloneIncrementAgrees | documentai-api/src/documentai_api/utils/batch_operations.py:122-179 | A worker of the transition system that increments with nobody in between changes the rows exactly as the method does. |
| BatchTables.AloneTerminalWriteAgrees | documentai-api/src/documentai_api/classifiers/document_classification.py:50-65 | So does a guarded terminal write, which queues exactly one metrics message and makes its increment when it lands. |
| BuildLock.UploadsAtMost | documentai-api/src/documentai_api/routers/build.py:405-467 | However submits, retries, rollbacks, failed calls and deletes interleave, the merged documents that reach S3, whether or not the caller was told so, are at most one more than the deletes that removed a metadata row carrying the lock; the submits that report success are among them. |
| BuildLock.StepKeeps | documentai-api/src/documentai_api/utils/document_build.py:148-192 | The lock account is kept by every step: each grant after the first was made possible by a rollback that landed or by a delete of a locked row. |
| BuildLock.OnlyTheHolderClears | documentai-api/src/documentai_api/routers/build.py:458-467 | While no locked row was deleted, a request about to clear the lock is its one holder, nothing has been uploaded, and no other submit is past the lock. |
| BuildLock.AbandonedLockBlocks | documentai-api/src/documentai_api/routers/build.py:458-467 | While no locked row was deleted, a submit that failed at stamping, at the upload or at its rollback keeps the lock for good: no submit has succeeded and none is under way. |
| BuildLock.LockIsFreeIff | documentai-api/src/documentai_api/routers/build.py:405-467 | In every run without a delete of a locked row the lock is free if and only if every submit that took it has rolled back, that is, none succeeded, none ended with an error, and none is under way. |
| BuildLock.FailureRollsBackIff | documentai-api/src/documentai_api/routers/build.py:410-467 | Which failures give the lock back: only one while preparing the document leads to the rollback; any other failure of a submit that holds the lock or has just taken it leaves it set, but for a rollback that had already cleared it when it raised. |
| BuildLock.ConsentDecides | documentai-api/src/documentai_api/routers/build.py:351-383 | A build with consent, or none stated, is never reported as declined; one that declined is never locked, so never uploaded, while its metadata row has not been removed. |
| BuildPages.PageNumbersAreDistinct | documentai-api/src/documentai_api/utils/document_build.py:84-105 | Two create-only uploads of the same page number both succeed only if that page was deleted; with no deletes successful uploads own distinct numbers. |
| BuildPages.NumbersAreKept | documentai-api/src/documentai_api/utils/document_build.py:84-105 | For every page number, in every run, the successful create-only uploads are at most its row plus its removals. |
| BuildPages.CreatorOwnsThePage | documentai-api/src/documentai_api/utils/document_build.py:84-107 | A successful create-only upload still owns its row unless the page was deleted or overwritten on request. |
| BuildPages.EveryPageHasItsFile | documentai-api/src/documentai_api/routers/build.py:99-120 | The bytes are stored before the row that names them: until a file is deleted every uploaded page row names a stored file. |
| BuildTraces.PageHoldsItsBytesIff | documentai-api/src/documentai_api/routers/build.py:92-120 | In every run the file a page names was stored by the page's owner, and holds the owner's bytes if and only if since then nobody else has stored a file under the same page number and extension and no delete has removed it. |
| BuildTraces.RefusedUploadReplacesIff | documentai-api/src/documentai_api/routers/build.py:92-120 | A create-only upload to a page that is there is refused, and has replaced that page's bytes if and only if it has the same extension. |
| BuildTraces.DeleteIsRefusedIff | documentai-api/src/documentai_api/utils/document_build.py:131-134 | In every run, with the lock free, so that the build can be submitted, deleting the build or a page is refused if and only if some page was stamped and has not been replaced or removed since. |
| BuildPages.AloneUploadCreates | documentai-api/src/documentai_api/routers/build.py:197-219 | An upload without a number that nobody interrupts creates exactly the page after the last, and changes no other row. |
| BuildPages.AccessIff | documentai-api/src/documentai_api/utils/tenant_access.py:32-38 | A request of the build's tenant goes on from its access check if and only if there is a metadata row that an update has not recreated after a delete. |
| BuildPages.SubmitGoesOnIff | documentai-api/src/documentai_api/routers/build.py:383-403 | A submit goes on to the lock if and only if some row is listed and no two pages name different categories. |
| BuildPages.UploadGoesOnIff | documentai-api/src/documentai_api/routers/build.py:197-205 | An upload goes on if and only if fewer than fifty rows are listed, to the number it was given, else to the one after the last listed. |
| BuildPages.PageZeroIsTheMetadata | documentai-api/src/documentai_api/routers/build.py:179-205 | In every run no page row is numbered 0, whatever is uploaded, stamped or deleted meanwhile. |
| BuildCounterexamples.TwoUploadsAfterADelete | documentai-api/src/documentai_api/utils/document_build.py:257-271 | A run in which a delete that checked before the submit locked removes the lock with the row: two submits succeed, so the bound of `UploadsAtMost` is met. |
| BuildCounterexamples.FailedUploadKeepsTheLock | documentai-api/src/documentai_api/routers/build.py:440-463 | A run in which the first and only upload fails and the build stays locked. The comment beside the rollback says the lock is cleared so that the user can retry; the upload raises an HTTP error, which is re-raised first. |
| BuildCounterexamples.RolledBackReadsSubmitted | documentai-api/src/documentai_api/utils/document_build.py:131-192 | A run after which the rolled-back build can be submitted again but, because its pages keep their stamps, still reads as submitted and cannot be deleted. |
| BuildCounterexamples.LoserReplacesTheBytes | documentai-api/src/documentai_api/routers/build.py:99-120 | A run in which the upload that loses a page number is refused after its bytes have replaced those of the page that won it. |
| BuildTables.BuildTable.MarkDocumentBuildSubmitted | documentai-api/src/documentai_api/utils/document_build.py:137-180 | Locks exactly when the attribute is absent, creates the row when there is none, and stamps exactly the pages there are, changing nothing else of them. |
| BuildTables.BuildTable.UpsertDocumentBuildPage | documentai-api/src/documentai_api/utils/document_build.py:55-107 | Writes the whole page row, replacing one that is there only on request; otherwise nothing changes. |
| BuildTables.BuildTable.ClearSubmittedAt | documentai-api/src/documentai_api/utils/document_build.py:183-192 | Clears the attribute of the metadata row, creating a bare row when there is none. |
| BuildTables.BuildTable.DeleteDocumentBuildPage | documentai-api/src/documentai_api/utils/document_build.py:195-216 | Refused when submitted, not found, or that row and its file gone and every other row and file unchanged. |
| BuildTables.BuildTable.IsDocumentBuildSubmitted | documentai-api/src/documentai_api/utils/document_build.py:131-134 | True exactly when the metadata row or some page row carries the attribute. |
| BuildTables.AlonePutAgrees | documentai-api/src/documentai_api/utils/document_build.py:55-107 | A put of the transition system changes the page table as the method does, and reports a create-only success if and only if there was no such row. |
| BuildTables.AloneDeletePageAgrees | documentai-api/src/documentai_api/utils/document_build.py:195-216 | A page delete that nobody interrupts, with its check, its look-up, its file and its row, changes the rows and files as the method does, for page 0, the metadata row, too. |
| BuildTables.BuildTable.DeleteDocumentBuild | documentai-api/src/documentai_api/utils/document_build.py:257-271 | Refused and unchanged when submitted; otherwise no row is left and exactly the files no page named remain. |
| BuildTables.AloneDeleteBuildAgrees | documentai-api/src/documentai_api/utils/document_build.py:257-271 | A delete of the whole build that nobody interrupts, with a check before each page, leaves the rows and files as the method does, whatever the order of its pages. |
| BuildTables.AloneLockAgrees | documentai-api/src/documentai_api/utils/document_build.py:137-180 | A submit of the transition system that takes the lock with nobody in between changes the rows exactly as the method does. |
| BuildTables.AloneRollbackAgrees | documentai-api/src/documentai_api/utils/document_build.py:183-192 | A rollback of the transition system clears the metadata row as the method does, and leaves pages, stamps and files alone. |
| BuildTables.RollbackUndoesTheLock | documentai-api/src/documentai_api/utils/document_build.py:137-192 | Taking the lock and rolling back gives the metadata row back if and only if there was one; otherwise a bare row stays. |
| BoxMerging.ComputeIoU | ui/shared/utils/bbox.js:10-24 | The ratio lies in [0, 1], never divides by zero whatever the two rectangles are, and is positive exactly when they overlap. |
| BoxMerging.IoUSymmetric | ui/shared/utils/bbox.js:10-24 | Symmetric. |
| BoxMerging.IoUOneIffEqual | ui/shared/utils/bbox.js:10-24 | One exactly for equal rectangles. |
| BoxMerging.MergeIsTight | ui/shared/utils/bbox.js:51-64 | Every merge the rule allows gives a rectangle of less than 9/4 of the overlap. |
| BoxGroups.MergeOverlappingBoxes | ui/shared/utils/bbox.js:31-74 | The scanning, assigning and splicing loop terminates, computes the merge-the-first-pair closure of the singletons, and no two groups of its result overlap with a joint area below three times the overlap, that is, at a ratio above one half. |
| BoxGroups.MergeAllSettles | ui/shared/utils/bbox.js:40-72 | The same of the closure of any groups. |
| BoxGroups.TwoBoxesMergeIff | ui/shared/utils/bbox.js:40-64 | Two boxes become their union with both entries if they overlap by that much, and otherwise stay as they are. |
| BoxGroups.GroupsPartitionTheBoxes | ui/shared/utils/bbox.js:31-74 | The groups partition the input boxes; each carries its members' entries in order, and its rectangle is the smallest that contains their boxes. |
| BoxGroups.MergeAllKeepsFields | ui/shared/utils/bbox.js:51-64 | The multiset of field entries is unchanged. |
| BoxGroups.OrderDecides | ui/shared/utils/bbox.js:40-72 | For all boxes in a chain whose unions are too large to go on, listing them in opposite orders groups them differently. |
| BoxGroups.OrderMatters | ui/shared/utils/bbox.js:40-72 | Such chains exist, so the result does depend on the order of the input. |
| Pagination.QueryFiltered | documentai-api/src/documentai_api/utils/base_readonly_table.py:102-119 | For every index, filter, positive limit and way of cutting pages the loop terminates and returns exactly the matching items between its start and its cursor, at most 2 * limit - 1 of them, and at least limit unless the index ended. |
| Pagination.Query | documentai-api/src/documentai_api/utils/base_readonly_table.py:67-122 | The same for every limit, none and zero included, with and without a filter; the cursor always moves on. |
| Pagination.FollowingTheCursor | documentai-api/src/documentai_api/utils/base_readonly_table.py:96-122 | Following the cursor until it is absent returns exactly the matching items of the index at increasing places, each once and none left out, in at most one call more than there are items. |
| Pagination.FetchAll | documentai-api/src/documentai_api/utils/base_readonly_table.py:67-122 | The client's loop terminates for every limit per call, with that result; without a filter it returns the index. |
| Common.FilterIsExact | documentai-api/src/documentai_api/utils/base_readonly_table.py:96-122 | What a filter keeps of a list stands at increasing places of it, which are exactly those of the items that satisfy the filter. |
| FieldTree.ListedIffReached | documentai-api/src/documentai_api/readers/bda.py:48-86 | Of a tree with plain keys the recursive walk lists a leaf at a path exactly when following the path reaches it. |
| FieldTree.LeafAtIff | documentai-api/src/documentai_api/readers/bda.py:48-86 | Following a path reaches a value if and only if the value stands at that path of keys, is of the leaf kind, and everything on the way is a group. |
| FieldTree.JoinInjective | documentai-api/src/documentai_api/readers/bda.py:52 | Dotted names of paths with plain keys determine the path. |
| FieldTree.NamesAreDistinct | documentai-api/src/documentai_api/readers/bda.py:48-86 | The dotted names of one plain tree's leaves are distinct. |
| FieldReader.Lists.ExtractFields | documentai-api/src/documentai_api/readers/bda.py:36-86 | The recursion that appends to the shared lists and dictionaries leaves them as recording every leaf in order does. |
| FieldReader.Lists.AddField | documentai-api/src/documentai_api/readers/bda.py:58-75 | One leaf joins exactly one list: the empty ones if its value is absent or ""; else those of missing geometry if it has none and its confidence is below the threshold; else its confidence is scored. Its value, and its geometry when asked for, are stored under its name. |
| FieldReader.ReadBdaOutput | documentai-api/src/documentai_api/readers/bda.py:89-126 | The result records the leaves of every object of the explainability list, in order: the names of the empty ones, the names of those with a value, without geometry and with a confidence below 0.25 with the flag on or below 0 with it off, and the confidences of all others. |
| FieldReader.ReportedIff | documentai-api/src/documentai_api/readers/bda.py:58-75 | A name is reported as empty, or as missing geometry, if and only if some leaf of that name is so, by its own members. |
| FieldReader.AllFieldsContain | documentai-api/src/documentai_api/readers/bda.py:100-112 | The recorded leaves are those of the objects in the list. |
| FieldReader.ReadLeafIff | documentai-api/src/documentai_api/readers/bda.py:48-60 | A path leads to a field if and only if it holds an object with a confidence or a value and every object on the way has neither. |
| FieldAgreement.AverageAgreesIff | documentai-api/src/documentai_api/utils/bda.py:28-43 | What the later average keeps by name is the reader's scored list if and only if no scored field shares its name with an empty or missing-geometry one; then the average is the mean of the scored list. |
| FieldAgreement.OneTreeAgrees | documentai-api/src/documentai_api/utils/bda.py:28-43 | So it always is for one tree with plain keys. |
| FieldAgreement.MeanIsExact | documentai-api/src/documentai_api/utils/bda.py:38-43 | The mean times the number of confidences is their sum, and there is none of an empty list. |
| FieldAgreement.FieldsAreHeld | documentai-api/src/documentai_api/readers/bda.py:66-75 | Under distinct names each field's value, and its geometry and type when asked for, is found under its name in the end. |
| FieldAgreement.MetricsAgreeIff | documentai-api/src/documentai_api/utils/extraction_timing.py:65-93 | With distinct names the metrics count exactly the scored fields if and only if the feature flag is on or no field was classified as missing geometry; every field is in exactly one class. |
| FieldAgreement.MissingOnlyWhenNegative | documentai-api/src/documentai_api/readers/bda.py:13-20 | With the flag off only a negative confidence can be classified as missing geometry. |
| FieldAgreement.KeysMustBePlain | documentai-api/src/documentai_api/readers/bda.py:52 | Two trees, one with a dot in a key and one with an empty key, whose leaf names clash, so plain keys are needed. |
| FieldFlatten.Out.FlattenFields | ui/shared/components/document-viewer.js:55-65 | The recursion writing into the shared object assigns exactly the leaves, in order. |
| FieldFlatten.FlatIsExact | ui/shared/components/document-viewer.js:40-65 | The flattening of a plain tree maps exactly the dotted leaf paths to their leaves. |
| FieldFlatten.ViewedLeafIff | ui/shared/components/document-viewer.js:40-65 | A path leads to a viewer leaf if and only if it holds no object, or one with a value, a confidence or a geometry, and every object on the way has none of the three. |
| FieldFlatten.FlatIsInjective | ui/shared/components/document-viewer.js:40-65 | Two plain trees without empty groups that flatten to the same map are the same tree. |
| BlurDetection.PartitionWords | documentai-api/src/documentai_api/utils/blur_detection.py:156-173 | Each quadrant gets exactly the words whose own left and top lie on its side of 0.5, in order. |
| BlurDetection.LowCountIs | documentai-api/src/documentai_api/utils/blur_detection.py:66-81 | The count of low words is the number of words with a confidence below the floor. |
| BlurDetection.QuadrantsConserve | documentai-api/src/documentai_api/utils/blur_detection.py:156-173 | The four quadrants conserve the number of words, the low-confidence words and the sum of confidences. |
| BlurDetection.EvaluateQuadrants | documentai-api/src/documentai_api/utils/blur_detection.py:176-219 | Despite the early break a quadrant is reported exactly when some populated quadrant fails, and with none failing the skipped ones are exactly the sparse ones. |
| BlurDetection.CheckEmptyQuadrants | documentai-api/src/documentai_api/utils/blur_detection.py:301-323 | Exactly the empty quadrants of a dense page are shown to the model, and a yes to any of them fails the page. |
| BlurDetection.DetectBlur | documentai-api/src/documentai_api/utils/blur_detection.py:276-344 | The exact verdict, in coordinates and numbers: no document below five words; else blurry if and only if some quarter of the page has five words or more and an average below 85 or over 30 % of its words below 70; or none has, there are twenty words or more, and the model says yes to an empty quarter; or no quarter has five words and the whole page has such an average or share. |
| BlurDetection.WeakQuarterBlurs | documentai-api/src/documentai_api/utils/blur_detection.py:176-219 | Five words or more in any one quarter whose sum is below 85 times their number make the page blurry. |
| BlurDetection.FallbackIsForShortPages | documentai-api/src/documentai_api/utils/blur_detection.py:222-241 | The page fallback is reachable only with 5 to 16 words, so never together with the model check. |
| BlurDetection.PassesIff | documentai-api/src/documentai_api/utils/blur_detection.py:66-81 | A quadrant passes exactly when its sum and its low words are within the limits times its size. |
| BlurDetection.PassingQuadrantsPassThePage | documentai-api/src/documentai_api/utils/blur_detection.py:66-81 | When every quadrant with words is populated and passes, the whole page passes. |
| AuditLog.AssignedIsRecent | documentai-api/src/documentai_api/logging/audit.py:121-127 | Moving to the end and evicting at every assignment keeps exactly the most recent part of the unbounded history. |
| AuditLog.KeptIffLast | documentai-api/src/documentai_api/logging/audit.py:121-127 | The history keeps an assignment exactly when no later one is to the same key. |
| AuditLog.RememberedIff | documentai-api/src/documentai_api/logging/audit.py:116-127 | A key is still held, with its last value, if and only if fewer than maxsize distinct other keys were assigned after it; otherwise it reads 0. |
| AuditLog.LeastRecentlyUsedDict.SetItem | documentai-api/src/documentai_api/logging/audit.py:121-127 | After any assignments the dictionary holds exactly the maxsize most recently assigned distinct keys, in order of last assignment, each with its last value. |
| AuditLog.SizeIs | documentai-api/src/documentai_api/logging/audit.py:110-127 | The dictionary holds as many keys as were ever assigned, up to maxsize, none when that is negative. |
| AuditLog.LeastRecentlyUsedDict.GetItem | documentai-api/src/documentai_api/logging/audit.py:116-119 | The held value, 0 for any other key. |
| AuditSampling.AuditLogger.LogAuditEvent | documentai-api/src/documentai_api/logging/audit.py:73-96 | Every event is counted and logged as specified, except that a mismatch of arguments and names raises before anything is counted. |
| AuditSampling.RepeatCount | documentai-api/src/documentai_api/logging/audit.py:81-86 | A repeated event counts one more than before if and only if fewer than maxsize distinct others came in between; otherwise it restarts at 1. |
| AuditSampling.CountIsExact | documentai-api/src/documentai_api/logging/audit.py:81-86 | A never-evicted event is counted exactly, whatever comes in between. |
| AuditSampling.MessagesAreSampled | documentai-api/src/documentai_api/logging/audit.py:88-96 | Its messages carry exactly the sampled counts up to its number of occurrences. |
| AuditSampling.MessageCount | documentai-api/src/documentai_api/logging/audit.py:88-96 | After n occurrences it has been logged n times for n up to 10, 9 + n/10 times up to 100, and 18 + n/100 times beyond. |
| AuditSampling.AlternatingIsNeverSampled | documentai-api/src/documentai_api/logging/audit.py:81-96 | Without that hypothesis sampling need not set in: with room for one key, an event alternating with another is counted as 1 for ever. |
| CompareCost.CompositeKeyReadsBackIff | documentai-api/src/documentai_api/utils/ddb.py:488-510 | A written key reads back as its model and reason if and only if the model id has no `#`. |
| CompareCost.PartitionIsExact | documentai-api/src/documentai_api/utils/ddb.py:466-470 | A key is read as what stands before and after its first `#`, and as all model when it has none. |
| CompareCost.SumTokenUsageByModel | documentai-api/src/documentai_api/utils/ddb.py:458-472 | The loop with its default buckets computes the per-model fold. |
| CompareCost.SummedIsExact | documentai-api/src/documentai_api/utils/ddb.py:466-470 | Each model's bucket holds the sum of its entries' tokens, and there is a bucket exactly for the models that occur. |
| CompareCost.SummingConserves | documentai-api/src/documentai_api/utils/ddb.py:466-470 | Collapsing reasons into models changes nothing that adds up, neither tokens nor cost. |
| CompareCost.CostIsLinear | documentai-api/src/documentai_api/utils/llm_cost.py:17-26 | The cost of a model is linear in its tokens. |
| CompareCost.BucketsAreExact | documentai-api/src/documentai_api/routers/extraction_compare.py:152-159 | Each reason bucket holds what its own entries cost, and the buckets together what all entries cost. |
| CompareAmounts.GetCompareCosts | documentai-api/src/documentai_api/routers/extraction_compare.py:126-168 | Fails exactly when some recorded model names a price row without token prices. Otherwise a million times the amount of each model no fee takes is its entries' input tokens times its input price plus their output tokens times its output price; models unused or unpriced have none; the fees stand under their names at their own rates; and the buckets are the OCR-mapping entries with the layout fee, all other entries, and the primary engine's fee. |
| CompareAmounts.ByModelMeans | documentai-api/src/documentai_api/routers/extraction_compare.py:128-146 | The amounts by model in those terms, for every model. |
| CompareAmounts.ByReasonMeans | documentai-api/src/documentai_api/routers/extraction_compare.py:152-168 | The three buckets in those terms. |
| CompareCost.TotalsDifferByTheOverwritten | documentai-api/src/documentai_api/routers/extraction_compare.py:128-168 | The total by reason exceeds the total by model by exactly the token cost of models that go by the name of an assigned fee. |
| CompareCost.TotalsAgreeIff | documentai-api/src/documentai_api/routers/extraction_compare.py:128-168 | With positive token prices the totals agree if and only if no tokens were recorded for a priced model whose name a fee takes. |
| CompareCost.FeeNamesUnpricedAgree | documentai-api/src/documentai_api/config/model_cost.json:1-26 | With no token price under a fee's name, as in the shipped table, the totals always agree. |
| NameCase.JoinedToCamel | documentai-api/src/documentai_api/utils/strings.py:6-9 | A name of lower-case words joined by underscores becomes the first word and the capitalised others. |
| NameCase.MarkHumpsOf | documentai-api/src/documentai_api/utils/strings.py:14 | What the first substitution makes of such a name: it marks a word of two letters or more unless the word before was marked, whose match used up the character between. |
| NameCase.MarkCapitalsOf | documentai-api/src/documentai_api/utils/strings.py:15 | What the second adds: a mark at every unmarked capital after a lower-case letter. |
| NameCase.MarkCapitalsMarksAll | documentai-api/src/documentai_api/utils/strings.py:15 | In any string the second substitution marks every capital behind a lower-case letter or a digit: no match uses up what another needs. |
| NameCase.OnlyMarksAndCaseChange | documentai-api/src/documentai_api/utils/strings.py:6-15 | Converting any string either way changes nothing but underscores and case. |
| NameCase.CamelIgnoresCase | documentai-api/src/documentai_api/utils/strings.py:6-9 | The camel form of any string does not depend on the case of its letters. |
| NameCase.ThereAndBack | documentai-api/src/documentai_api/utils/strings.py:6-15 | What any name of lower-case words comes back as: itself, but for the underscore between two one-letter words after the first. |
| NameCase.RoundTripIff | documentai-api/src/documentai_api/utils/strings.py:6-15 | The round trip is the identity if and only if no two one-letter words stand side by side after the first word. |
| NameCase.LongWordsRoundTrip | documentai-api/src/documentai_api/utils/strings.py:6-15 | In particular when every word after the first has two letters or more. |
| NameCase.FirstScanAloneFails | documentai-api/src/documentai_api/utils/strings.py:14 | The first substitution alone loses a boundary of every name with two long words after the first. |
| NameCase.SecondScanAloneFails | documentai-api/src/documentai_api/utils/strings.py:15 | The second alone loses the boundary after a one-letter word, where both together do not. |
| ImageCrop.CropIsTight | documentai-api/src/documentai_api/utils/image_optimization.py:64-88 | A successful crop of a valid box lies inside the image, and of the box widened by three hundredths of its size on each side and cut off at the image it loses nothing on the left and top and less than a pixel on the right and bottom, and keeps less than a pixel outside. |
| ImageCrop.DocumentIsKeptIff | documentai-api/src/documentai_api/utils/image_optimization.py:49-51 | A crop contains the whole detected box if and only if on each axis the padding runs past the image or across a pixel boundary; the left and top edges are never clipped. |
| ImageCrop.DocumentIsKept | documentai-api/src/documentai_api/utils/image_optimization.py:49-51 | In particular when the padding is a pixel or more on each side. |
| ImageCrop.SmallImagesAreClipped | documentai-api/src/documentai_api/utils/image_optimization.py:49-51 | Otherwise it is clipped, against what the docstring says: a box on a 10 by 10 image that loses three quarters of a pixel. |
| ImageCrop.UnusableIff | documentai-api/src/documentai_api/utils/image_optimization.py:66-86 | A valid box of three quarters of the image or more is left alone; a smaller one is unusable if and only if, along some side, no pixel boundary lies within its padded extent. |
| ImageCrop.DownscaleForDetection | documentai-api/src/documentai_api/utils/bbox_detection.py:36-75 | Whatever the encoder does the loops terminate; the original is kept exactly when within limits; otherwise the copy is the best of the tried qualities that fits, or the first halving that fits or has a side of at most two pixels. |
| ImageCrop.CopyIsWithinLimits | documentai-api/src/documentai_api/utils/bbox_detection.py:53-69 | The copy is never larger than 8000 pixels a side, and fits in 3750000 bytes unless a side is at most two pixels. |
| ImageCrop.CopyIsBest | documentai-api/src/documentai_api/utils/bbox_detection.py:55-69 | The copy has its sides divided by a power of two and rounded down, at least 1; its quality is one of 85, 70, 55, 40, every higher one of which does not fit; it is halved only after 40 did not fit, and only while neither side is at most two pixels. |
| ImageCrop.ResizedIs | documentai-api/src/documentai_api/utils/bbox_detection.py:51-53 | An image too large is resized in proportion: each side times 8000 by the larger one, rounded down, and at least 1. |
| ExtractionRules.MissingAtReadTime | documentai-api/src/documentai_api/utils/extraction_rules.py:63-80 | At read time a required field is missing if and only if the missing list names it or no extracted field goes by its name, in any case. |
| ExtractionRules.FieldsReturned | documentai-api/src/documentai_api/utils/extraction_rules.py:58-75 | A field comes back if and only if it goes by the name of a required or an optional one, in any case, and is not both required and named in the missing list; without a rule every field does. |
| ExtractionRules.MissingIff | documentai-api/src/documentai_api/utils/extraction_rules.py:63-104 | The same field by field: at read time missing when the list names it or no extracted field is called so, at processing time in the first case only, and nothing is computed without a tenant or a document type. |
| ExtractionRules.ReadingAddsTheNeverExtracted | documentai-api/src/documentai_api/utils/extraction_rules.py:83-104 | Given the same missing list, reading finds what processing found plus the required fields never extracted; the two agree if and only if every required field outside the list was extracted. |
| ExtractionRules.WithoutTheListAgreeIff | documentai-api/src/documentai_api/utils/extraction_rules.py:63-104 | With the feature off, where reading gets no list, the two agree if and only if the list names exactly the required fields never extracted. |

## Left out

- BatchProtocol: one batch at a time and current reads; index staleness of the job re-query is not modelled.
- BatchProtocol: retries inside the AWS client, by which one call may take effect and still be reported as failed, are not modelled for batches.
- BatchProtocol: documents handled by the OCR-mapping extraction skip the status write and the counter, so they take no part.
- BatchProtocol: `set_bda_processing_status_not_started` has no caller and is not a step.
- BatchTheorems.CounterIsSafe: says nothing about liveness; a batch may stay PROCESSING, as `DeclinedWhileUploading` shows, until the reaper sweeps it.
- BatchTables.AloneDeleteAgrees: the purge of the stored files and the tenant check are not modelled.
- BuildLock.UploadsAtMost: the job row inserted before the upload is not modelled, nor what the uploaded pages contained; pages may be added after the lock.
- BuildProtocol: one build at a time; a batch of page uploads is modelled as single uploads with the numbers it allocated, and its cancellation of siblings as failed calls.
- BoxGroups.MergeOverlappingBoxes: coordinates are reals, so floating-point rounding is not modelled; `splice` on the array is modelled on a sequence.
- Pagination.Query: cursors are numbers of items passed; the encoding of a cursor for the client is taken to be injective.
- FieldReader.ReadBdaOutput: a confidence that is not a number reads as 0, and duplicate keys of an object do not occur in a parsed document.
- FieldFlatten.FlatIsInjective: the order of an object's keys is ignored.
- BlurDetection.DetectBlur: the word boxes come from Textract and the model's answer is a parameter; the returned explanation text is left out.
- AuditSampling.AuditLogger.LogAuditEvent: the extra fields of a message and the text form of the arguments are left out; the event name with that text is the key.
- CompareAmounts.GetCompareCosts: rounding to eight places, response fields other than the costs, and access checks are left out; the per-page rates are taken to be in the table.
- NameCase.RoundTripIff: upper and lower case are those of ASCII; words with digits are left out.
- ImageCrop.DownscaleForDetection: an encoder that raises, upon which the original is used, is left out; so are image decoding and floating-point rounding.
- ExtractionRules.MissingAtReadTime: lists are sets, so their sorted order is left out.
- AWS clients, queues, routing, authentication, masking, user interface, PDF and image encoding, and JSON parsing are foreign calls or thin wrappers.
- The write limit, the reaper's and the document processor's own loops, metrics shapes and enum listings would only add easy members.
