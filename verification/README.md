# A verified model of application-services

This project models, in Dafny 4.11, the state machines and merge algorithms of
Mozilla's application-services, and proves what they promise over every input,
every server behaviour and every run. `dafny verify dfyconfig.toml` checks it.

What is modelled, hardest first:

- **Uploading in batches** (`UploadProtocol`, `UploadLedger`, `UploadQueue`,
  `UploadOutcome`, `PostQueue`). Records are packed into posts and posts into
  server-side batches under five limits. The server is any function of the posts so far. Proved: the
  limits hold for every post and batch, no accepted record is lost, repeated or
  reordered, every post is as full as the limits allow and commits exactly where a
  batch has to end, an upload fails exactly when a stated answer says so, ids are
  reported only once their batch is settled, and none of the assertions in the
  code fires, except in one exactly described case.
- **The login store** (`LoginRecord`, `LoginCells`, `LoginPlan`, `LoginRuns`,
  `UpdatePlan`, `LoginDb`, `LoginSync`, `LoginUpload`, `Convergence`). Two tables,
  changed statement by statement, refine a map of visible logins; an incoming
  changeset is planned and executed as a reconciliation guid by guid. Two stores
  that edit the same login and sync in turn, with any other records coming in,
  show the same if and only if a stated condition holds: it speaks of edits that
  only count a use and of rows that another record replaces as a duplicate.
  Against any server, a sync confirms exactly the ids that were reported.
- **Setting up a sync** (`SetupMachine`, `SetupRuns`, `SetupOutcome`,
  `SetupStateMachine`), **storage tokens** (`TokenProvider`) and **signing in**
  (`LoginMachine`): state machines
  against arbitrary servers and clocks, with bounds on their runs and invariants
  over chains of runs.
- **Autocomplete matching** (`Utf8`, `TextMatch`): a search over UTF-8 bytes (section
  3 of RFC 3629) finds exactly what a search over characters finds.
- **The Android log adapter** (`LogAdapter`): every interleaving of loggers, the
  background thread and the drop.
- **HTTP headers** (`Headers`, `TextOrder`): two ways of building a list mean the same.

Code that updates objects in place is modelled by classes whose methods are
proved against functions on values; the properties are then proved of those
functions. Panics and failed assertions are values (`Panicked`), so that the
exact condition under which they are reached can be stated. Clocks, servers,
random guids and the Unicode case tables are parameters.

## Where the code does less than one would expect

For each of these the theorem named first gives the exact condition and the one
named second a case where it happens, unless said otherwise.

- An upload panics when the server's limits admit no record at all and some
  record is tried (`UploadQueue.UploadStops`, `UploadQueue.ZeroLimitPanics`).
- Using a login (`touch`) is not uploaded. As long as no other record replaces the
  login, two clients disagree for good, whatever the number of syncs, exactly when
  neither has anything to upload and they show different logins; otherwise four
  syncs in turn bring them together
  (`Convergence.DisagreeForGoodIff`, `Convergence.TouchStaysApart`).
- An incoming record that duplicates an edited login can take the local row, and
  the edit with it, and hide the login (`LoginSync.StoresConverge`,
  `Convergence.ReplacedEditIsLost`).
- Adding a login under a guid that the mirror already shows lists it twice
  (`LoginDb.AddStaysValidIff`, `LoginRuns.AddOverMirrorListsTwice`).
- Confirming an upload in chunks loses a live row exactly when two chunks name
  its guid (`LoginRuns.ChunkingIsHarmless`, `LoginRuns.RepeatedGuidIsLost`).
- Confirming an id that was not sent hides a login that only the mirror has
  (`LoginDb.ConfirmKeepsMap`, `LoginUpload.UnsentAnswerHides`).
- A reset brings back logins whose mirror row is overridden without a local row
  (`LoginDb.ResetLosesNothing`). Merging a duplicate leaves such rows
  (`LoginRuns.OrphanedIff`, `LoginRuns.DuplicateLeavesOrphan`).
- An empty-string target, or a time or count that is not positive, does not
  survive a delta (`LoginRecord.DeltaRoundTrip`, `LoginRecord.EmptyTargetIsLost`).
- A local deletion of a login that the mirror does not have can be undone by an
  incoming record (`LoginRuns.UnknownDeletionMayLose`,
  `LoginRuns.DeletionUndoneAfterReset`).
- A read-only sync can wipe the server, because the fresh start does not consult
  the allowed states, against the comment in components/sync15/src/state.rs:198
  (`SetupRuns.CanWriteIff`, `SetupRuns.ReadonlySyncCanWrite`).
- A declined list that comes with an older storage version is read but not
  carried over (`SetupRuns.UploadsLastReadIff`, `SetupRuns.OlderVersionIsForgotten`).
- Signing in never returns exactly when every step of the call meets what it takes
  to go on: keys, a key pair or a certificate where one is asked for, and a clock
  that overtakes the certificate (24 hours) or the key pair before the next look
  (`LoginMachine.NeverReturnsIff`, `LoginMachine.SlowClockNeverReturns`).
- A commit that the server takes with a failed record, although none may fail,
  leaves ids pending outside a batch (`UploadQueue.IdsWaitForTheirBatch`,
  `UploadQueue.PendingOutsideBatch`).
- A declined list that was read in a run that then failed is not persisted, against
  the comment in components/sync15/src/sync_multiple.rs:40-43
  (`SetupRuns.UploadsChainReadIff`, `SetupRuns.FailedRunForgets`).
- Replacing a header checks the value before trimming it, adding one after
  (`Headers.HeaderList.Insert`, `Headers.TrimmingAcceptsMore`).

## Model

| member | source | states |
|---|---|---|
| `PostQueue.LimitTracker.Clear` | components/sync15/src/request.rs:182-185 | both counters go back to nothing |
| `PostQueue.LimitTracker.RecordAdded` | components/sync15/src/request.rs:197-204 | the assertion holds exactly when the record can be added, and then bytes and count grow by it |
| `PostQueue.NormalResponseHandler.HandleResponse` | components/sync15/src/request.rs:378-405 | a refusal, or a failed record that is not allowed, changes no id list; otherwise the ids wait inside a batch and are settled with all pending ones outside |
| `PostQueue.PostQueue.constructor` | components/sync15/src/request.rs:413-430 | a fresh queue outside any batch with the timestamp it was given |
| `PostQueue.PostQueue.Enqueue` | components/sync15/src/request.rs:440-516 | the queue, the answer and the panics are those of the specification `Enqueued`, of which the lemmas of `UploadQueue` speak |
| `PostQueue.PostQueue.Flush` | components/sync15/src/request.rs:518-632 | the same for one post and its answer, panics on an empty buffer inside a batch included |
| `PostQueue.PostQueue.Receive` | components/sync15/src/request.rs:562-632 | how each kind of answer moves the batch mode, the timestamp, the counters and the ids |
| `PostQueue.PostQueue.CompletedUploadInfo` | components/sync15/src/request.rs:644-668 | pending ids are reported as failed and nothing is kept |
| `PostQueue.EnqueueAll` | components/sync15/src/changeset.rs:147-174 | records are enqueued in order up to the first failure; a refused record stops a fully atomic upload |
| `PostQueue.Upload` | components/sync15/src/changeset.rs:147-174 | for every server and record list: the posts carry the fitting records in order, each as many as fit, within all limits, and commit exactly where a batch ends; the upload fails if and only if a refused record stops a fully atomic one or the answer to its last post means a failure, with the error that answer means; else it reports exactly the answered ids; fully atomic success has no failed id and no refused record; it panics if and only if the limits admit nothing and a record is tried |
| `PostQueue.UploadAll` | components/sync15/src/changeset.rs:147-174 | the steps of an upload are those of the specification that `UploadOutcome` and `UploadQueue` speak of |
| `UploadOutcome.FlushFails` | components/sync15/src/request.rs:562-632 | a flush succeeds if and only if the answer means no failure: an error, a 412, another status that is no success, a broken batch, or a failed record that is not allowed, each with its own error |
| `UploadOutcome.SendPacked` | components/sync15/src/request.rs:476-516 | a post goes out only when the next record does not fit or none is left, and is to end its batch exactly when the next record does not fit the batch or none is left |
| `UploadOutcome.UploadIsExplained` | components/sync15/src/changeset.rs:147-174 | every upload that does not panic has such posts and answers, and its outcome is the one they mean |
| `UploadProtocol.EveryPostWithinLimits` | components/sync15/src/request.rs:187-205 | in a history within limits every single post and every run of posts of one batch is within limits |
| `UploadProtocol.NextPostNamesBatch` | components/sync15/src/request.rs:532-545 | the post after a mid-batch answer carries the batch id of that answer |
| `UploadProtocol.SettledOnlyByClosing` | components/sync15/src/request.rs:378-405 | an exchange is settled only if a later exchange of the same batch (or itself) committed or was outside a batch |
| `UploadProtocol.PendingOnlyInBatch` | components/sync15/src/request.rs:378-405 | exchanges are unsettled if and only if a batch is open |
| `UploadLedger.SendKeepsSound` | components/sync15/src/request.rs:518-561 | sending the buffer keeps buffer, counters and history in agreement, and empties the batch count exactly when the batch ends |
| `UploadLedger.ModeKeepsSound` | components/sync15/src/request.rs:575-632 | so does a change of batch mode with an empty buffer |
| `UploadLedger.AddKeepsSound` | components/sync15/src/request.rs:470-515 | so does writing one more record that fits |
| `UploadLedger.AnswerKeepsAnswered` | components/sync15/src/request.rs:575-632 | after a success answer the exchanges still obey the protocol, and mode and timestamp follow them |
| `UploadQueue.FlushedSound` | components/sync15/src/request.rs:518-632 | a flush keeps the ledger sound whatever the server answers, accepts no record and loses none |
| `UploadQueue.ExchangeKeepsGood` | components/sync15/src/request.rs:562-632 | after every successful exchange mode, timestamp and the four id lists are those of the exchanges so far, settled up to the last closing one |
| `UploadQueue.EnqueuedSound` | components/sync15/src/request.rs:440-516 | an enqueue keeps the ledger sound; it refuses exactly the too large records and then changes nothing; it returns true exactly if the record is appended to the accepted ones |
| `UploadQueue.EnqueuedStops` | components/sync15/src/request.rs:440-516 | between the calls of an upload an enqueue panics if and only if the record is not refused and the limits admit nothing |
| `UploadQueue.EnqueuedAllSound` | components/sync15/src/request.rs:440-516 | over every run of enqueues the ledger is sound, the accepted records are a prefix of the fitting ones, and all of them if no call failed |
| `UploadQueue.UploadSendsEveryRecord` | components/sync15/src/changeset.rs:147-174 | the records of all posted bodies, concatenated, are a prefix of the records that fit, and exactly those on success, once each and in order |
| `UploadQueue.UploadStops` | components/sync15/src/changeset.rs:147-174 | an upload panics if and only if the limits admit nothing and some record is tried |
| `UploadQueue.ZeroLimitPanics` | components/sync15/src/request.rs:197-204 | a concrete configuration under which a small record panics, against any server |
| `UploadQueue.UploadSettlesEveryId` | components/sync15/src/changeset.rs:147-174 | a successful upload leaves no batch open, reports all answered ids, none as pending, and none as failed if failures are not allowed |
| `UploadQueue.FailedFlushKeepsIds` | components/sync15/src/request.rs:378-405 | a flush that does not succeed leaves all four id lists as they were |
| `UploadQueue.FailedFlushAccounted` | components/sync15/src/request.rs:562-632 | after a failed flush ids are pending outside a batch if and only if it was a commit answered with a failed record that is not allowed |
| `UploadQueue.IdsWaitForTheirBatch` | components/sync15/src/request.rs:378-405 | at every point of an upload, failed calls and the final flush included, an id counts as successful only if its post was outside a batch or a later post of the same batch closed it; ids are pending outside a batch if and only if the last post was a commit answered with a failed record that is not allowed |
| `UploadQueue.PendingOutsideBatch` | components/sync15/src/request.rs:579-584 | a concrete upload of two records that ends so |
| `UploadQueue.UploadIsLawful` | components/sync15/src/changeset.rs:147-174 | the previous results together, for every server |
| `LoginRecord.Delta` | components/logins/src/login.rs:393-446 | the delta of two logins is the one the merge lemmas speak of |
| `LoginRecord.Merge` | components/logins/src/login.rs:320-357 | the merged delta is the one the merge lemmas speak of |
| `LoginRecord.ApplyDelta` | components/logins/src/login.rs:359-391 | the login with a delta applied is the one the merge lemmas speak of |
| `LoginRecord.CheckFinds` | components/logins/src/login.rs:71-88 | the check finds nothing if and only if host and password are given and there is exactly one target; else what is wrong first |
| `LoginRecord.MergeIsSymmetric` | components/logins/src/login.rs:320-357 | merging a into b with b newer is merging b into a with b newer |
| `LoginRecord.DeltaRoundTrip` | components/logins/src/login.rs:359-446 | applying the delta of new and old to old gives new, apart from the id, if and only if no changed target is the empty string and no changed time or count is non-positive |
| `LoginRecord.EmptyTargetIsLost` | components/logins/src/login.rs:359-446 | a concrete target that does not survive a delta |
| `LoginRecord.ThreeWayMergesFields` | components/logins/src/update_plan.rs:33-59 | for all three logins: one-sided changes survive, two-sided ones take the newer side, use counts give local + upstream - shared |
| `LoginRecord.ThreeWayIsSymmetric` | components/logins/src/update_plan.rs:33-59 | both clients of a conflict compute the same merge |
| `LoginCells.ListedIsVisible` | components/logins/src/db.rs:897-929 | a consistent guid is listed at most once and the listing is what the user sees |
| `LoginCells.AddEffect` | components/logins/src/db.rs:326-416 | adding shows the login and makes it outgoing, with its times now and one use; a consistent cell stays so if and only if the mirror does not show one already or the add is refused |
| `LoginCells.UpdateEffect` | components/logins/src/db.rs:418-467 | the visible login, or an orphan, gets everything the user entered; id and creation time are kept, a use is counted, the password time moves exactly if the password differs, and it is outgoing; a deleted login stays hidden |
| `LoginCells.TouchEffect` | components/logins/src/db.rs:303-324 | a touch changes only the use count and the time of last use of a visible login, or shows an orphan, and makes nothing outgoing |
| `LoginCells.DeleteEffect` | components/logins/src/db.rs:485-535 | a delete hides the login, clears what the user entered and queues a tombstone if the mirror has it; a login the server never saw leaves no trace |
| `LoginCells.WipeEffect` | components/logins/src/db.rs:594-637 | the same for every guid of a wipe |
| `LoginCells.ResetEffect` | components/logins/src/db.rs:570-592 | a reset shows what was visible, and something new if and only if an overridden mirror row has no local row |
| `LoginPlan.PlanAboutGuid` | components/logins/src/db.rs:651-704 | the plan of a whole changeset acts on a guid as the plan of that guid's own record, except that its local row may go as a duplicate |
| `LoginPlan.PlanCarriesOutReconciliation` | components/logins/src/update_plan.rs:75-258 | deleting, updating, inserting and merging in the plan's order does to every guid exactly what the reconciliation of the changeset says |
| `LoginPlan.ReplacedIff` | components/logins/src/db.rs:687-698 | a local login is replaced if and only if it is the duplicate of an incoming login that is new here and has a password no older |
| `LoginPlan.ReconciledIsKeyed` | components/logins/src/update_plan.rs:101-246 | rows stay stored under their own guid |
| `UpdatePlan.UpdatePlan.PlanTwoWayMerge` | components/logins/src/update_plan.rs:24-31 | inserts the upstream row, overridden if the local password is newer, else drops the local row |
| `UpdatePlan.UpdatePlan.PlanThreeWayMerge` | components/logins/src/update_plan.rs:33-59 | adds the mirror update and the three-way merge that `LoginArrives` describes in raw times |
| `UpdatePlan.UpdatePlan.PlanDelete` | components/logins/src/update_plan.rs:61-64 | the guid is to go from both tables |
| `UpdatePlan.UpdatePlan.PlanMirrorUpdate` | components/logins/src/update_plan.rs:66-68 | one more mirror row to update |
| `UpdatePlan.UpdatePlan.PlanMirrorInsert` | components/logins/src/update_plan.rs:70-73 | one more mirror row to insert |
| `UpdatePlan.Reconcile` | components/logins/src/db.rs:651-704 | the plan built record by record is the plan that `PlanCarriesOutReconciliation` speaks of |
| `UpdatePlan.ReconcileOne` | components/logins/src/db.rs:660-702 | the case split over stored rows and duplicates for one record |
| `LoginRuns.InboundDeletionWins` | components/logins/src/db.rs:663-669 | after any changeset a guid with an inbound tombstone is in neither table |
| `LoginRuns.LoginArrives` | components/logins/src/update_plan.rs:24-246 | what an incoming login makes of the rows of its guid, in raw times: with both rows a three-way merge in which two-sided changes take the side that is younger by its own clock; with one row or none the two-way merge, the update or the insert |
| `LoginRuns.NewLoginShows` | components/logins/src/update_plan.rs:142-204 | a login that is new here and no duplicate is shown exactly as it came |
| `LoginRuns.LocalDeletionWins` | components/logins/src/update_plan.rs:206-246 | a local tombstone with a mirror row never becomes visible, and is still sent if and only if the inbound record does not delete it too and it is not replaced as a duplicate |
| `LoginRuns.UnknownDeletionMayLose` | components/logins/src/update_plan.rs:24-31 | in any changeset, without a mirror row it stays hidden if and only if it is newer than the incoming password, else the incoming login shows |
| `LoginRuns.DeletionUndoneAfterReset` | components/logins/src/db.rs:485-592 | a run that reaches such a tombstone, by delete and reset, and a record that undoes it |
| `LoginRuns.OrphanedIff` | components/logins/src/update_plan.rs:24-31 | a changeset leaves a hidden mirror row without local row if and only if a row is replaced as a duplicate or a record duplicates a login with a newer password |
| `LoginRuns.DuplicateLeavesOrphan` | components/logins/src/db.rs:687-698 | a concrete changeset that does, and the reset that shows the row |
| `LoginRuns.ReconciledIsConsistent` | components/logins/src/db.rs:651-704 | an incoming changeset keeps the tables consistent |
| `LoginRuns.MarkedByChunks` | components/logins/src/db.rs:122-168 | the effect of the chunked confirmation depends only on how many chunks name the guid |
| `LoginRuns.ChunkingIsHarmless` | components/support/sql/src/each_chunk.rs:74-92 | confirming in chunks equals confirming the whole list at once if and only if at most one chunk names the guid or its local row is not live |
| `LoginRuns.RepeatedGuidIsLost` | components/logins/src/db.rs:122-168 | for every chunk size, a live login whose guid is repeated beyond one chunk is in neither table afterwards |
| `LoginRuns.ConfirmedUpload` | components/logins/src/db.rs:122-168 | for any list of guids, exactly they leave the outgoing set, and a login changes in the user's sight if and only if it is named, visible, and has no local row or is named by two chunks |
| `LoginRuns.DistinctUpload` | components/logins/src/db.rs:122-168 | for distinct guids with local rows the visible login is unchanged |
| `LoginRuns.StepKeepsTidy` | components/logins/src/db.rs:303-755 | every operation, an add over a mirror row included, keeps local tombstones waiting to be sent and hiding the mirror row |
| `LoginRuns.StepKeepsConsistent` | components/logins/src/db.rs:303-649 | each of nine operations keeps a guid from being in both listings, if and only if it does not add under a guid the mirror shows |
| `LoginRuns.NeverListedTwice` | components/logins/src/db.rs:897-929 | over every run of operations from empty tables no guid is listed twice |
| `LoginRuns.AddOverMirrorListsTwice` | components/logins/src/db.rs:326-416 | the excluded case is real: a concrete run that lists a guid twice |
| `LoginDb.VisibleLogins` | components/logins/src/db.rs:897-929 | the abstract map: a guid is in it if and only if the tables show it, with the login shown |
| `LoginDb.StepKeepsTidy` | components/logins/src/db.rs:303-755 | every operation keeps rows under their own guid and tombstones waiting |
| `LoginDb.StepKeepsValid` | components/logins/src/db.rs:303-755 | each of nine operations keeps the tables valid: rows under their own guid, no guid in both listings, tombstones waiting to be sent |
| `LoginDb.AddStaysValidIff` | components/logins/src/db.rs:326-416 | a successful add keeps them valid if and only if the mirror did not show the guid |
| `LoginDb.ListingIsOneMap` | components/logins/src/db.rs:288-649 | at every point of every run from empty tables the listing has each guid exactly as one map of visible logins says |
| `LoginDb.AddSetsOne` | components/logins/src/db.rs:326-416 | a successful add sets one key of the visible map, in any tables, and makes it outgoing |
| `LoginDb.UpdateSetsOne` | components/logins/src/db.rs:418-467 | an update sets one key of the visible map to the login as entered, or none if the login is deleted, and is outgoing |
| `LoginDb.TouchSetsOne` | components/logins/src/db.rs:303-324 | a touch sets one key of the visible map to the login with one more use, or none if the login is deleted |
| `LoginDb.DeleteRemovesOne` | components/logins/src/db.rs:485-535 | a delete step removes one key from the visible map and nothing else, in any tables, and leaves the right tombstone or none |
| `LoginDb.WipeRemovesAll` | components/logins/src/db.rs:594-637 | a wipe step empties the visible map and leaves an outgoing tombstone for every mirror guid |
| `LoginDb.WipeIsStep` | components/logins/src/db.rs:594-637 | the four statements of a wipe together act on every guid as the wipe step |
| `LoginDb.ConfirmKeepsMap` | components/logins/src/db.rs:122-168 | confirming leaves the visible map as it is if and only if no named guid is visible without local row or named by two chunks, and takes exactly the named guids from the outgoing set |
| `LoginDb.ReconcilingDeletes` | components/logins/src/db.rs:651-704 | after a changeset every guid it deletes is in neither table, local deletions known to the mirror stay hidden and are sent if and only if neither deleted nor replaced, and other guids are as before |
| `LoginDb.ReconcilingReceives` | components/logins/src/db.rs:651-704 | the same for every login of a changeset over whole tables, and rows replaced as duplicates are gone |
| `LoginDb.ResetLosesNothing` | components/logins/src/db.rs:570-592 | a reset loses no visible login, and changes the map if and only if an overridden mirror row has no local row |
| `LoginDb.LoginDb.Exists` | components/logins/src/db.rs:469-481 | true exactly for the keys of the visible map |
| `LoginDb.LoginDb.GetById` | components/logins/src/db.rs:294-301 | finds the listed row that is first by hostname whenever there is one, and in valid tables exactly what the visible map has |
| `LoginDb.LoginDb.GetAll` | components/logins/src/db.rs:288-292 | has for each guid exactly its listed rows, in valid tables exactly the visible map |
| `LoginDb.LoginDb.MarkMirrorOverridden` | components/logins/src/db.rs:537-543 | overrides the mirror row of one guid only |
| `LoginDb.LoginDb.EnsureLocalOverlayExists` | components/logins/src/db.rs:545-568 | the guid gets a local row if either table has it, and nothing changes otherwise |
| `LoginDb.LoginDb.Touch` | components/logins/src/db.rs:303-324 | succeeds exactly if either table has the guid; the visible login has one more use and the new time and is otherwise as before; the tables stay valid |
| `LoginDb.LoginDb.Add` | components/logins/src/db.rs:326-416 | succeeds exactly for a storable login without local row, under the given or a fresh guid; the login as entered, with times now and one use, is visible and outgoing; the tables stay valid if and only if the mirror did not show the guid |
| `LoginDb.LoginDb.Update` | components/logins/src/db.rs:418-467 | succeeds exactly for a storable login known to either table; field by field the visible login is as entered, unless it is deleted; it is outgoing; the tables stay valid |
| `LoginDb.LoginDb.Delete` | components/logins/src/db.rs:485-535 | returns whether the guid was visible and removes exactly it from the visible map, in any tables |
| `LoginDb.LoginDb.DeleteRows` | components/logins/src/db.rs:495-533 | the statements of a delete act on every guid as the delete step |
| `LoginDb.LoginDb.Wipe` | components/logins/src/db.rs:594-637 | the visible map is empty, in any tables, and every mirror guid has an outgoing tombstone |
| `LoginDb.LoginDb.WipeLocal` | components/logins/src/db.rs:639-649 | both tables, the visible map and the last sync time are empty |
| `LoginDb.LoginDb.Reset` | components/logins/src/db.rs:570-592 | no visible login is lost; the map is unchanged if and only if there is no orphaned mirror row |
| `LoginDb.LoginDb.FetchOutgoing` | components/logins/src/db.rs:716-743 | for each guid exactly its outgoing payload, a tombstone or the login |
| `LoginDb.LoginDb.MarkAsSynchronized` | components/logins/src/db.rs:122-168 | the chunked loop takes exactly the guids from the outgoing set, keeps the visible map if and only if none is visible without local row or in two chunks, and stores the time |
| `LoginDb.LoginDb.MarkChunk` | components/logins/src/db.rs:126-160 | one chunk: the named guids leave the local table, live ones become mirror rows |
| `LoginDb.LoginDb.FetchLoginData` | components/logins/src/db.rs:173-256 | fails exactly on a repeated or unreadable record, else pairs every record with the stored rows of its guid |
| `LoginDb.LoginDb.PerformDeletes` | components/logins/src/update_plan.rs:75-98 | exactly the planned guids go from each table |
| `LoginDb.LoginDb.PerformMirrorUpdates` | components/logins/src/update_plan.rs:101-140 | each mirror row takes the updates under its guid in order |
| `LoginDb.LoginDb.PerformMirrorInserts` | components/logins/src/update_plan.rs:142-204 | inserts go in unless the guid is taken |
| `LoginDb.LoginDb.PerformLocalUpdates` | components/logins/src/update_plan.rs:206-246 | each local row takes the merges under its guid in order and becomes changed |
| `LoginDb.LoginDb.Execute` | components/logins/src/update_plan.rs:248-258 | the four phases in order, guid by guid |
| `LoginDb.ExecutedIsStep` | components/logins/src/update_plan.rs:248-258 | executing the plan of a changeset makes the reconciliation step on every guid and keeps rows under their guid |
| `LoginDb.LoginDb.ApplyIncoming` | components/logins/src/db.rs:745-755 | an acceptable changeset is reconciled on every guid: every login meets the rows of its guid as `LoginArrives` says, deletions win, replaced duplicates go, validity is kept, and exactly what is outgoing is returned; any other changes nothing |
| `LoginSync.Fetch` | components/sync15/src/sync.rs:52-121 | the download has each record changed after the last sync exactly once |
| `LoginSync.Store` | components/sync15/src/sync.rs:52-121 | a server that takes every upload holds the uploaded records and answers for their guids |
| `LoginSync.Synchronize` | components/sync15/src/sync.rs:52-121 | a whole sync keeps validity and acts on every guid as the one-guid sync of `Convergence`, duplicates that replace its row included |
| `LoginSync.SyncOfAll` | components/sync15/src/sync.rs:52-121 | download, reconciliation, upload and confirmation together are the one-guid sync for each guid |
| `LoginSync.StoresConverge` | components/sync15/src/sync.rs:52-121 | two stores with any other records: after A, B and A have synced, the shared login shows the same in both if and only if the edits will agree despite the rows replaced as duplicates |
| `LoginSync.SyncInTurn` | components/sync15/src/sync.rs:52-121 | the same for two store objects that are synced three times |
| `LoginUpload.SynchronizeAgainst` | components/sync15/src/sync.rs:52-121 | against any server: a failed upload leaves the reconciled tables and the last sync time, a finished one confirms exactly the reported ids; the wire is lawful and panics are as for an upload |
| `LoginUpload.UnsentAnswerHides` | components/logins/src/db.rs:122-168 | an answered id that only the mirror shows goes from the visible map |
| `Convergence.EditsLeadToEdited` | components/logins/src/db.rs:303-637 | whatever updates, touches, deletes and wipes are made to a shared base, the rows keep the id, override the mirror, keep positive times and count upwards |
| `Convergence.MergeOfEdits` | components/logins/src/update_plan.rs:33-59 | merging two edits adds up their uses and keeps all times positive |
| `Convergence.SecondSync` | components/logins/src/db.rs:651-743 | a client that meets another client's upload shows afterwards exactly what the server then holds, and has nothing local left |
| `Convergence.HiddenSync` | components/logins/src/update_plan.rs:24-31 | a replaced row hides the login and uploads nothing |
| `Convergence.SyncsConverge` | components/logins/src/db.rs:651-743 | after A, B and A have synced with no row replaced, both show the same login if and only if the edits will agree |
| `Convergence.SyncsConvergeDespite` | components/logins/src/db.rs:651-743 | the exact condition when in each of the three syncs the row may be replaced as a duplicate |
| `Convergence.ConcurrentEditsConverge` | components/sync15/src/sync.rs:52-121 | the same for all sequences of updates, touches, deletes and wipes on both sides; always if neither side only touched and no row is replaced |
| `Convergence.ReplacedEditIsLost` | components/logins/src/update_plan.rs:24-31 | a concrete duplicate after which A shows nothing and sends nothing while B shows the base |
| `Convergence.QuietForever` | components/sync15/src/sync.rs:52-121 | edits of which neither is uploaded stay as they are over any number of syncs |
| `Convergence.FourSyncsConverge` | components/sync15/src/sync.rs:52-121 | if either edit is uploaded, A, B, A and B syncing in turn brings both together |
| `Convergence.DisagreeForGoodIff` | components/sync15/src/sync.rs:52-121 | the clients disagree after every sequence of syncs if and only if neither edit is uploaded and they show different logins |
| `Convergence.TouchStaysApart` | components/logins/src/db.rs:303-324 | a login touched on one client only: no number of syncs shows it to the other |
| `SetupMachine.AdvanceMakesProgress` | components/sync15/src/state.rs:391-423 | every transition that is not refused lowers the number of labels a run can still record |
| `SetupMachine.DefaultEngines` | components/sync15/src/state.rs:88-118 | a new meta/global names exactly the default engines with their versions and fresh ids |
| `SetupOutcome.AdvanceContinues` | components/sync15/src/state.rs:227-388 | what a transition leads to is what its last answer means, and all that the next state holds was read or held |
| `SetupOutcome.AdvanceIsOrderly` | components/sync15/src/state.rs:391-423 | every request was the one due and the allowed states permitted it |
| `SetupOutcome.EveryRunEndsAs` | components/sync15/src/state.rs:391-423 | for every server a run ends with the error or panic its last answer means; or with a state that is held and current, or read in the run; else it was interrupted, not allowed to go on, or would start afresh twice |
| `SetupOutcome.ReusedIff` | components/sync15/src/state.rs:338-362 | a run returns without reading meta/global if and only if it holds a state, is not interrupted, and the server's collections name meta and crypto with times no later than the held ones |
| `SetupRuns.AdvanceWrites` | components/sync15/src/state.rs:227-388 | a transition writes to the server only from a fresh start, and then wipes it exactly once |
| `SetupRuns.RunIsBounded` | components/sync15/src/state.rs:391-423 | from any point a run records at most the labels that remain and wipes at most once |
| `SetupRuns.RunToReadyIsBounded` | components/sync15/src/state.rs:391-423 | for every server a run records at most nine labels and wipes the server at most once |
| `SetupRuns.NoSetupNoWrites` | components/sync15/src/state.rs:169-182 | a run that may not read the setup writes nothing |
| `SetupRuns.CanWriteIff` | components/sync15/src/state.rs:141-225 | some server makes a run write to it if and only if the allowed states contain InitialWithConfig |
| `SetupRuns.FastSyncNeverWrites` | components/sync15/src/state.rs:169-182 | a fast sync never writes to the server |
| `SetupRuns.ReadonlySyncCanWrite` | components/sync15/src/state.rs:184-206 | a read-only sync can |
| `SetupRuns.FreshStartRemembers` | components/sync15/src/state.rs:88-118 | a fresh start uploads the declined list last read with the current version, else the persisted one, else the default |
| `SetupRuns.RunRemembers` | components/sync15/src/state.rs:261-423 | so does every run from any state that remembers; it returns only states of the current storage version and then holds the list last read |
| `SetupRuns.EveryRunOfAChain` | components/sync15/src/state.rs:261-423 | over every chain of runs fed with kept states, every state has storage version 5 and every upload declines what was last read with that version, persisted or default |
| `SetupRuns.UploadsLastReadIff` | components/sync15/src/state.rs:261-423 | over every chain, an upload declines the list last read whatever its version if and only if that was of version 5, nothing was read, or the list carried is the same |
| `SetupRuns.OlderVersionIsForgotten` | components/sync15/src/state.rs:261-294 | a full sync from a server whose version-4 meta/global declines history, with nothing persisted, uploads one that declines nothing |
| `SetupRuns.SuccessfulReadIsKept` | components/sync15/src/sync_multiple.rs:108-122 | the persisted list is the one last read in the whole chain if the last run that read one succeeded |
| `SetupRuns.UploadsChainReadIff` | components/sync15/src/sync_multiple.rs:108-122 | over every chain, an upload declines the list last read in any of its runs if and only if its own run read one, the last run that read one succeeded, or the persisted list is the same |
| `SetupRuns.FailedRunForgets` | components/sync15/src/sync_multiple.rs:108-122 | a run that reads that history is declined, wipes the server and fails, and the next run that uploads a meta/global declining nothing |
| `SetupStateMachine.SetupStateMachine.WithAllowedStates` | components/sync15/src/state.rs:209-225 | a machine with nothing recorded |
| `SetupStateMachine.SetupStateMachine.ForFullSync` | components/sync15/src/state.rs:141-166 | the same with the states of a full sync |
| `SetupStateMachine.SetupStateMachine.MakeGlobal` | components/sync15/src/state.rs:88-118 | the new meta/global has version 5, the fresh id, exactly the default engines and the declined list that is known |
| `SetupStateMachine.SetupStateMachine.Advance` | components/sync15/src/state.rs:227-388 | the transition is the one the lemmas of `SetupRuns` and `SetupOutcome` speak of, for every server |
| `SetupStateMachine.SetupStateMachine.RunToReady` | components/sync15/src/state.rs:391-423 | the loop ends, as `EveryRunEndsAs` says for a fresh machine, records at most nine more labels and wipes at most once |
| `TokenProvider.TokenProvider.FetchToken` | components/sync15/src/token.rs:262-294 | a token is never from another endpoint than before, an endpoint once known is remembered until the node is reassigned, backoff keeps its time and a failure its error |
| `TokenProvider.TokenProvider.AdvanceState` | components/sync15/src/token.rs:300-327 | nothing is fetched if and only if the token is valid, the backoff lasts or the node is reassigned; a fetch is compared with the endpoint remembered and never forgets it |
| `TokenProvider.TokenProvider.WithToken` | components/sync15/src/token.rs:329-363 | in every run of calls it never panics and answers as the lemmas on runs say |
| `TokenProvider.TokensShareOneEndpoint` | components/sync15/src/token.rs:262-363 | over all calls, fetch results and clock values, all tokens ever used share one endpoint |
| `TokenProvider.ReassignedForever` | components/sync15/src/token.rs:300-363 | once the node is reassigned no later call fetches or uses a token |
| `TokenProvider.BackoffIsObeyed` | components/sync15/src/token.rs:300-363 | nothing is fetched up to the backoff time, and every caller is told that time |
| `TokenProvider.NeverPanics` | components/sync15/src/token.rs:329-363 | neither panic is reachable, and a token used without a fetch is still valid |
| `TokenProvider.FetchIsAnswered` | components/sync15/src/token.rs:329-363 | a call that asks answers with the token, the reset, the backoff time or the error that came back |
| `TokenProvider.OldAnswerIsGiven` | components/sync15/src/token.rs:329-363 | a call that does not ask answers with the valid token, the backoff time or the reset |
| `LoginMachine.StepKeeps` | components/fxa-client/src/login_sm.rs:41-165 | uid and email survive every transition, the session token survives until Separated, Separated is absorbing |
| `LoginMachine.StepMoves` | components/fxa-client/src/login_sm.rs:41-165 | a step fails exactly on keys nothing can be derived from; it separates the account exactly if keys are refused with another error than 104, no key pair can be made or signing is refused; what it receives and the expiry times of 30 days and 24 hours are as told |
| `LoginMachine.StepOfCall` | components/fxa-client/src/login_sm.rs:27-39 | in every call, keys, key pair and certificate were there at the start or received at the look their expiry counts from |
| `LoginMachine.SeparatedIff` | components/fxa-client/src/login_sm.rs:27-39 | a call ends separated if and only if it started so or its last change of state was such a rejection |
| `LoginMachine.RankDecreases` | components/fxa-client/src/login_sm.rs:41-119 | while looks are at most a day apart every change of state brings the call closer to its end |
| `LoginMachine.NeverReturnsIff` | components/fxa-client/src/login_sm.rs:27-119 | for every start, clock, key generator and server, the call never returns if and only if every step meets what it takes to go on |
| `LoginMachine.SteadyReturns` | components/fxa-client/src/login_sm.rs:27-39 | if looks at the clock are at most 24 hours apart the call returns |
| `LoginMachine.Advance` | components/fxa-client/src/login_sm.rs:27-39 | exactly if some step does not go on it ends, at the first step that fails or keeps the kind of state; within six steps if looks are at most 24 hours apart; it ends separated exactly after a rejection; the account is the same, what it holds was received, and a married result is unexpired |
| `LoginMachine.JumpingClockNeverSettles` | components/fxa-client/src/login_sm.rs:27-119 | with looks always more than 24 hours apart, and key pairs and certificates always to be had, a call from keys without a valid certificate never returns |
| `LoginMachine.SlowClockNeverReturns` | components/fxa-client/src/login_sm.rs:27-39 | a concrete clock and server under which the call never returns |
| `LoginMachine.RefusalReturns` | components/fxa-client/src/login_sm.rs:79-108 | a refusal to sign ends the call whatever the clock does |
| `Utf8.Encode` | components/places/src/match_impl.rs:255-265 | the bytes of a character: one to four, a lead byte that is no continuation and only continuations after it |
| `Utf8.BoundaryIsOffset` | components/places/src/util.rs:10-19 | every byte position that is no continuation is the start of a character or the end |
| `Utf8.SliceUpTo` | components/places/src/util.rs:10-19 | cuts at a character boundary no higher than the limit, and no higher one exists |
| `TextMatch.NextSearchCandidate` | components/places/src/match_impl.rs:143-193 | finds the first candidate byte or none |
| `TextMatch.CandidateIfSameLower` | components/places/src/match_impl.rs:131-193 | the first byte of every character with the lower case looked for is a candidate |
| `TextMatch.FirstCandidateIsBoundary` | components/places/src/match_impl.rs:143-193 | the first candidate byte never lies inside a character |
| `TextMatch.NothingSkipped` | components/places/src/match_impl.rs:143-193 | no character before the first candidate has the lower case looked for |
| `TextMatch.IsOnBoundary` | components/places/src/match_impl.rs:196-219 | the test on two bytes is the test on two characters |
| `TextMatch.FoldAllConcat` | components/places/src/match_impl.rs:226-243 | folding a string is folding its characters one after the other |
| `TextMatch.FoldAllAt` | components/places/src/match_impl.rs:226-243 | where no character folds to several, characters are paired one by one |
| `TextMatch.StringMatch` | components/places/src/match_impl.rs:226-243 | true exactly if the source is no shorter in bytes and its folding begins with the token's |
| `TextMatch.FindInString` | components/places/src/match_impl.rs:268-307 | ends, slices only at character boundaries, and is true if and only if some character matches the token |
| `LogAdapter.RunKeepsInv` | components/rc_log/src/android.rs:141-209 | in every interleaving the lock has one owner, no callback runs once stopped, and after the drop's send the thread is on its way out or has a message |
| `LogAdapter.NoCallbackOnceStopped` | components/rc_log/src/android.rs:141-168 | once the flag is set no callback is running and none ever starts |
| `LogAdapter.JoinReturns` | components/rc_log/src/android.rs:187-209 | once the drop waits, the thread takes at most three more steps and receives at most one more message, can move until it has exited, and then the join returns |
| `LogAdapter.RecordsArriveInOrder` | components/rc_log/src/android.rs:112-168 | in every interleaving the callback gets the records the channel took in order and once each; until the stop all of them are given, in hand or waiting, and the thread can move |
| `LogAdapter.DisabledForGood` | components/rc_log/src/android.rs:112-128 | once a send has failed only threads that had seen the sink enabled can still get a record in |
| `Headers.SortByName` | components/viaduct/src/headers.rs:332-333 | a stable sort by name |
| `Headers.DedupByName` | components/viaduct/src/headers.rs:335-335 | for any list, exactly the headers not named like the one before stay and every name keeps its first value; in a list sorted by name the names are then unique |
| `Headers.HeaderList.FromIter` | components/viaduct/src/headers.rs:327-338 | names are unique and every name has its last value |
| `Headers.HeaderList.Find` | components/viaduct/src/headers.rs:226-231 | the first header of a name, or none |
| `Headers.HeaderList.InsertHeader` | components/viaduct/src/headers.rs:191-198 | one name gets the value, all others keep theirs, the order of names is kept and names stay unique |
| `Headers.HeaderList.Insert` | components/viaduct/src/headers.rs:161-172 | succeeds exactly if the value is valid, trimmed first only for a new name; a failure changes nothing |
| `Headers.HeaderList.InsertIfMissing` | components/viaduct/src/headers.rs:177-186 | a present name is left alone, a missing one is inserted if its trimmed value is valid |
| `Headers.HeaderList.Extend` | components/viaduct/src/headers.rs:201-211 | every name has its last added value, else the one before; old names keep their places |
| `Headers.HeaderList.TryExtend` | components/viaduct/src/headers.rs:214-222 | succeeds exactly without an error, then extends; else returns the first error and changes nothing |
| `Headers.BuildBothWays` | components/viaduct/src/headers.rs:327-338 | building in one go and extending an empty list give the same value for every name |
| `Headers.TrimmingAcceptsMore` | components/viaduct/src/headers.rs:35-84 | every value valid as it stands is valid trimmed, and not conversely |
| `Headers.TrimIsBetween` | components/viaduct/src/headers.rs:35-44 | the trimmed string is the part between the first and the last character that is not whitespace |
| `Headers.ReversedGetsLast` | components/viaduct/src/headers.rs:334-334 | the first value of a reversed list is the last value of the list |

## Left out

- HTTP, URLs, Hawk authentication, JSON and encryption: responses are arbitrary values, a record is its bytes and payload length, and the wire format is only the joining of records into an array.
- components/sync15/src/coll_state.rs: would only add easy members.
- SQLite itself: transactions, rollback, interrupts and schema upgrades are not modelled; each store method is atomic. NULL columns are the defaults they are read as; of the meta table only the last sync time is kept.
- Timestamps are integers (the floating-point server timestamp is not modelled), and integers do not overflow.
- The choice of a duplicate by `find_dupe`: it is any function of the incoming login, so the results hold for every choice.
- The order of the rows of `get_all`, which the query leaves open.
- `CollectionUpdate::new_from_changeset` and its check of the unmodified-since time; telemetry; `into_separated`; the fetch of a collection other than its selection of newer records.
- Drop of the log adapter from within its own callback, which the source documents as a deadlock.
- Header names are taken as already validated and lower-cased.
- LoginSync.Synchronize: only a server that takes every upload, as for the convergence results; `LoginUpload.SynchronizeAgainst` takes any server.
- LoginSync.Store: only a server that takes every upload is modelled here, for the convergence results; `LoginUpload.SynchronizeAgainst` takes any server.
- TextMatch.FindInString: assumes of the case tables that ASCII letters lower-case as usual, other ASCII characters to themselves, U+0130 to i, U+212A to k, and every other character to a non-ASCII one. The tests in components/places/src/match_impl.rs:460-522 assert which characters have ASCII lower cases, not which ones those are; the tables themselves are not modelled.
- Headers.SortByName: stands for the library's stable sort and is an insertion sort.
