# Verified model of the inventory connector

A Dafny 4.11 model of the parts of the connector that keep state over time: the
resumable inventory scan and its staging store, the adapter pool, and the smaller
cores with an invariant of their own (audit rotation, role inheritance, keyset
paging, LIKE escaping, ODBC connection strings, batched column statistics, audit
rendering, the public-key cache, the paged export). `dafny verify dfyconfig.toml`
checks everything.

How it is laid out:

- `Tables` is the staging store as a value; `Staging` is the store object, whose methods
  are proved to do to the tables what `Tables` says, and `Annotating` says what annotations
  leave behind. `Scan` and `Runs` are one container and one run without pages; `Inventory`
  is the service object, proved against them. `History`, `Replay`, `ScanService` and
  `Reconcile` prove what holds over all histories and all interleavings; `ScanLog` ties
  scans to the log that `Replay` reads, and `Solo` shows that one worker left alone in the
  step machine leaves the tables of the run the service object is proved against.
- `Lru` is the pool as a value and the LRU cache it should be; `Pool` is the pool object;
  `PoolThreads` is threads sharing it.
- `Keyset` and `CatalogWalk` are paging over fixed and over changing rows; `Export` uses
  both page walks.
- `Audit`, `RoleBuild`/`RoleAnswers`/`Roles`, `Like`, `Odbc`/`OdbcServer`, `Profile`,
  `RenderSql` and `Keys` stand alone. `Wrappers`, `Ordering`, `Text` and `Contracts` are
  shared.

Conventions: a Python exception is a `Result`, `None` is an `Option`; clocks, adapters,
pings, file contents and database readings are parameters; an object that the program
updates in place is a class, each of whose methods is proved against a function on its
state, and the laws are proved of those functions.

Where the code and what is said about it part ways, the model follows the code:

- A container that recovers from a failed read is recorded as added again, so
  `container_added` is not once per container. `History.AddedExactlyWhenNotReadable` says
  exactly when it is recorded.
- A run that ends `done` does not make the next start a full one, and the progress of a
  cancelled run is kept but not continued: after either, the next start begins where it
  would have begun before it (`Runs.SettledRunsLeaveNextStart`), so it is full if and only
  if it would have been before (`Runs.FullAfterSettledRunIff`, `Runs.NextStartIsFullIff`;
  `Runs.OldCursorAfterDoneRun` is a store where it is not). A failed run, or one the
  process died under, is continued if and only if no unfinished run of its database
  started later (`Runs.FailedRunIsContinuedIffNewest`, `Runs.CrashedRunIsContinuedIffNewest`).
- Removals of a run that named no database reach into every database
  (`Runs.RemovalsStayInScope`), also into what another scan has just found there: they
  take nothing of its catalog if and only if they find what it finds
  (`Reconcile.RemovalSparesIff`). A scan beside such others reconciles all the same when
  they agree with it about the containers both are about (`Reconcile.DoneRunReconciles`).
- `schema_hash` is said to hold everything a scan overwrites. It does not hold the type,
  the estimated count and the modification time of a container, so a skipped container
  keeps stale ones exactly when those have changed (`History.SkipIsCurrentIff`).
- Store pages lose rows when a page ends between two containers of one name
  (`Export.KeysWalkedIff`), and repeat for ever when one ends on an empty name
  (`Export.StuckPageRepeats`).
- A `get` whose `create_adapter` raises loses the adapters it had already taken out
  (`PoolThreads.NothingLostIff`); where it had found a dead one of its own key, the pool is
  no longer the LRU cache of its uses (`Lru.PoolIsLruIff`).
- The driver is put between braces without escaping (`Odbc.SaysWhatIsMeantIff`), and the
  server named in an error message is found by splitting at every `;`
  (`OdbcServer.ServerIsNamedIff`).
- A public key is stamped after it is read, so "at most `ttl`" holds only where no read
  straddles the deletion (`Keys.ServedLateOnlyIfStraddled`).
- The pattern for key names ends in `$`, so it also lets a name with one line feed behind
  it pass (`Keys.ValidKidIff`).
- The audit trail is read back with `splitlines`, which also splits at three characters
  JSON does not escape (`Audit.ReadsBackIff`).

## Model

| member | source | states |
|---|---|---|
| Ordering.SortSet | src/adapter/datalake.py:184-186 | sorting a set gives each element once, in strictly increasing order, and nothing else |
| Ordering.SortedOnce | src/adapter/datalake.py:184-186 | a set has only one increasing listing, so the sorted order is well defined |
| Ordering.StringsOrdered | src/adapter/datalake.py:184-186 | the code-point order of strings is a strict total order |
| Keyset.NextShrinks | src/service/staging.py:996-1015 | each page leaves strictly less to read, so a walk over fixed rows ends for every page size |
| Keyset.WalkCompleteIffUnsplit | src/service/staging.py:996-1015 | over ordered rows a page walk returns every row exactly when no page ends between two rows with the same key; otherwise it returns fewer |
| Keyset.AscendingWalkComplete | src/adapter/datalake.py:177-209 | over rows with distinct keys the walk returns exactly the rows after the cursor, in order |
| Keyset.AscendingNextPage | src/service/inventory.py:198-231 | with distinct keys the next cursor leaves exactly the rows behind this page |
| CatalogWalk.PageShows | src/adapter/datalake.py:177-209 | a page shows names of the catalog past the cursor, in order, and every such name up to its next cursor |
| CatalogWalk.PageIsFilled | src/adapter/base.py:248-252 | a page is as large as asked for, between 1 and 1000, 100 where nothing is asked, and only the last is shorter |
| CatalogWalk.WalkUnderMutation | src/adapter/datalake.py:177-182 | however the catalog changes between requests: names come in strictly increasing order, each existed when its page was read, and a name past the cursor is returned exactly when it is there at the one request that decides it |
| CatalogWalk.PresentThroughoutIsReturnedOnce | src/adapter/datalake.py:177-182 | a name there at every request is returned exactly once |
| CatalogWalk.WalkContainers | src/adapter/base.py:207-219 | the walk ends over any finite universe of names within one request more than it has names, and gathers exactly the names of the walk under mutation |
| Staging.StagingStore.CreateScan | src/service/staging.py:488-492 | a new running row with no cursor and zero counts, and nothing else |
| Staging.StagingStore.AdvanceScan | src/service/staging.py:494-507 | cursor and counts of one row, and nothing else |
| Staging.StagingStore.FinishScan | src/service/staging.py:509-513 | state, error and finish time of one row, and nothing else |
| Staging.StagingStore.ResumableScan | src/service/staging.py:519-526 | the latest started running or failed row of this database, or none when there is none |
| Staging.StagingStore.UpsertContainer | src/service/staging.py:540-572 | scan-owned fields are replaced, the written description is kept, other rows stay |
| Staging.StagingStore.ReplaceColumns | src/service/staging.py:574-644 | upserting each column and deleting the rest leaves exactly the scanned columns, each keeping what other writers put on it |
| Staging.StagingStore.RecordProfile | src/service/staging.py:646-680 | one mode of one existing column, merged into its statistics |
| Staging.StagingStore.RecordSensitivity | src/service/staging.py:682-720 | a verdict is written where there is none or an earlier one from the same source; returns how many columns it wrote |
| Staging.StagingStore.RecordChange | src/service/staging.py:739-771 | one record appended |
| Staging.StagingStore.ContainerKeys | src/service/staging.py:802-818 | the keys of one database, or of all when none is named |
| Staging.StagingStore.ForgetContainer | src/service/staging.py:820-836 | the rows of one container go, its history stays |
| Staging.StagingStore.Annotate | src/service/staging.py:869-961 | descriptions and levels only: the container and each column get the last one given for them, its core or none for white space, signed and dated, and nothing else changes; the columns updated are counted and the unknown ones listed in order; an unknown container is refused |
| Staging.UpsertThenDelete | src/service/staging.py:574-644 | the statement-by-statement rewrite of one container's columns equals the keyed refresh |
| Staging.JudgeRows | src/service/staging.py:682-720 | the update loop writes exactly the columns a level is given for and may be replaced in, and counts them |
| Staging.AnnotateRows | src/service/staging.py:905-961 | applying annotations one after the other leaves each column its last description, cleaned, and its last level, and every other field as it was |
| Text.StripLeavesCore | src/service/staging.py:146-148 | stripping leaves nothing of a text exactly when it is all white space, and else a core with white space before and behind it only and at neither of its ends |
| Text.CoreIsOne | src/service/staging.py:146-148 | a text has only one such core |
| Annotating.BlankToNoneCleans | src/service/staging.py:146-148 | a description is stored as its core, and as none exactly when it is all white space |
| Annotating.AnnotateNotes | src/service/staging.py:869-961 | what is given is what is stored: of the container and of each known column, by position, the last description and the last level, and nothing else |
| Annotating.UpdatesAreCounted | src/service/staging.py:914-953 | the reported number of columns is the number of annotations that write to a known column |
| Annotating.UnknownAreListed | src/service/staging.py:920-923 | the reported unknown columns are exactly those named that are not there, in the order and as often as they are named |
| Tables.KeysTell | src/service/staging.py:540-572 | two containers share a row exactly when database, schema and name agree, no schema counting as the empty one |
| Scan.ScanKeepsSound | src/service/inventory.py:249-291 | one complete container scan, ok, unchanged, forced or failed, keeps the history linked, every stored hash the hash of exactly the stored columns and comment, and every readable row accounted for |
| Scan.RemovalKeepsSound | src/service/inventory.py:403-426 | recording and forgetting a removed container keeps the same |
| Scan.PreviousShapeIsWhole | src/service/inventory.py:372-381 | one page of all columns shows the whole previous shape, up to its limit |
| Scan.MoveFollows | src/service/inventory.py:342-401 | the record of a changed schema carries the last recorded hash as its old one, and its detail names, of the two hashed shapes, exactly what is only in the new one, only in the old one, or in both with another type |
| Scan.DetailOfTells | src/service/inventory.py:381-400 | by name: added is what only the new shape has, removed what only the old one has, retyped what both have with different types, old one first; each list is strictly increasing, and there is no detail exactly when all are empty |
| Scan.MoveIsTold | src/service/inventory.py:342-401 | what is recorded: nothing where the hash is as stored, an addition without a readable row, else the old and the new hash with the detail against the columns stored so far |
| Scan.ScanTellsMove | src/service/inventory.py:249-291 | that is what one scan adds to the history, and an unreadable container adds nothing |
| ScanLog.ScanRecords | src/service/inventory.py:249-291 | one scan by its reading: the error of an unreadable container marks its row and its columns stay; an unchanged one is left alone unless forced; else exactly the listed columns are stored, each with its listing, for every mode the last statistic read for it or the one before, the detected level where none or a detected one was, and the description it had |
| ScanLog.ShapeTakesLast | src/service/staging.py:574-644 | of columns listed under one name the last counts |
| ScanLog.HistoryIsReplayed | src/service/inventory.py:249-291 | after every history of scans, removals and annotations the containers and columns are those of the log of its writes |
| ScanLog.HistoryColumns | src/service/staging.py:574-720 | so after every such history each column is there exactly when its last listing has it, and each of its fields is the last write to it, an annotated level outranking a detected one |
| History.HistoryIsSound | src/service/inventory.py:249-291 | after every sequence of scans, removals and annotations the tables are sound |
| History.ChangesAreLinked | src/service/staging.py:739-771 | in every history, each `schema_changed` record's old hash is the new hash of the record just before it about the same container |
| History.StoredHashIsLastRecorded | src/service/staging.py:530-538 | a readable stored container carries the last hash recorded for it, which is the hash of its stored rows |
| History.ReplayIsBetween | src/service/staging.py:739-771 | replaying additions and removals gives a set with all readable containers and only stored ones |
| History.AddedExactlyWhenNotReadable | src/service/inventory.py:360-370 | a scan records `container_added` exactly when the source is readable and no readable row was there before |
| History.AddedTwice | src/service/staging.py:530-538 | a concrete history with one container and two identical additions |
| History.ForceMakesNoDifference | src/service/inventory.py:272-291 | on tables alike in shape, hash, comment, error, descriptions and history, one scan leaves them alike whether or not it is forced |
| History.SkipIsCurrentIff | src/service/staging.py:200-224 | a skip leaves a container's row what a forced rescan makes it, scan time aside, if and only if type, estimate and modification time are as listed now |
| History.IncrementalAgreesWithForced | src/service/inventory.py:263-291 | two histories that differ only in which scans were forced leave the same columns, comments, hashes, errors and history |
| Replay.ColumnReplay | src/service/staging.py:574-720 | over any interleaving of writers a column is there exactly when its container's last reshape lists it, with scan-owned fields from that event, the last description and the last statistic per mode since it appeared, and the last annotated level if any, else the last detected one |
| Replay.ContainerReplay | src/service/staging.py:540-572 | a container's row holds the last upsert's fields and the last written description since the row appeared |
| Replay.LastWriteAt | src/service/staging.py:869-961 | "the last write" by position in the log: who wrote it, and that nobody did after |
| Replay.ContainersAreIndependent | src/service/staging.py:574-961 | a container's rows depend on the events about that container only |
| Runs.PageOfTodo | src/service/inventory.py:198-231 | a page is a prefix of what is left to scan and its cursor leaves exactly the rest |
| Runs.ProgressRow | src/service/inventory.py:214-227 | the persisted row has the last scanned name as cursor and the counts of the containers completed; other rows stay |
| Runs.ProgressCounts | src/service/inventory.py:210-218 | after m containers failed is the number of those that could not be read, skipped of those read without force whose hash was stored just before, and done of the rest |
| Runs.EndedRowTells | src/service/inventory.py:219-247 | the row of a run that has ended holds its state, its error, its finish time and those counts |
| Runs.ProgressKeys | src/service/inventory.py:202-227 | scanning stores exactly the keys scanned besides what was stored, and changes no row, container or columns, of any other |
| Runs.ProgressKeepsSound | src/service/inventory.py:202-227 | soundness holds after every container of a run |
| Runs.RemoveAllEffect | src/service/inventory.py:403-426 | removing keys drops exactly their rows and appends one record each, in order |
| Runs.RemovalsLeaveSeen | src/service/inventory.py:420-426 | after the removal step the stored keys in scope are exactly those that were seen, and no row left is changed |
| Runs.RemovalsStayInScope | src/service/staging.py:802-818 | the removal step keeps every row of another database, container and columns, exactly when the run named its database or had nothing of the other left to remove |
| Runs.FullRunReconciles | src/service/inventory.py:403-426 | a full run over a named database leaves exactly the catalog's containers of it stored, and every container row and column row of every other database as it was |
| Runs.EndedKeys | src/service/inventory.py:233-247 | what a run leaves stored, however it ends: a done run without a cursor exactly the catalog in its scope, any other everything that was there and the containers it came to |
| Runs.SettledRunsLeaveNextStart | src/service/staging.py:519-526 | after a run that ends done or cancelled, a resuming start may begin at a cursor if and only if it might have before that run |
| Runs.FailedRunIsContinuedIffNewest | src/service/inventory.py:104-131 | after a failed run the next start continues it from its own cursor if and only if no unfinished run of the database started later, and an older one from its cursor if that started no earlier |
| Runs.CrashedRunIsContinuedIffNewest | src/service/inventory.py:104-131 | the same of a run the process died under, whose row still says running |
| Runs.NextStartIsFullIff | src/service/inventory.py:121-131 | the next start is full exactly when no row it may resume has a cursor |
| Runs.FullAfterSettledRunIff | src/service/staging.py:519-526 | after a done or cancelled run the next start is full if and only if it would have been before |
| Runs.OldCursorAfterDoneRun | src/service/staging.py:519-526 | a failed run and a done full run from the empty store, after which the next start takes the failed run's cursor |
| Inventory.InventoryService.Start | src/service/inventory.py:117-143 | refused exactly when the database is running; else one new row, its cancel event, its database marked, starting at the cursor of the latest unfinished run |
| Inventory.InventoryService.Cancel | src/service/inventory.py:157-164 | sets the event of a live job and says whether there was one |
| Inventory.InventoryService.Run | src/service/inventory.py:181-247 | the paged, cancellable loop leaves the tables that scanning the first m containers one by one leaves, m fixed by how it ended: done with all, or cancelled at m, with every request made having answered; failed with the error of connecting, or of the request made right behind m; a full done run also removes; the row says how and when it ended and counts what failed, was skipped and was scanned; the database and the event are released |
| Inventory.InventoryService.ScanPages | src/service/inventory.py:197-231 | the page loop reaches a prefix of the work, with exactly the keys of that prefix seen, and stops for the request that raised, the event, or the last page |
| Inventory.InventoryService.ScanPage | src/service/inventory.py:202-227 | one page, container by container, stopping before the first that finds the event set |
| Inventory.InventoryService.ScanContainer | src/service/inventory.py:249-291 | the write sequence of one container leaves what its reading says, column by column, and answers failed, skipped or done accordingly |
| Inventory.InventoryService.RecordMove | src/service/inventory.py:342-401 | nothing for an equal hash, an addition without a stored hash, else both hashes and, name by name, what was added, removed and retyped |
| Inventory.InventoryService.RecordRemovals | src/service/inventory.py:403-426 | for a run that covered everything, the sorted unseen keys are recorded and forgotten; else nothing |
| ScanService.StartsAgree | src/service/inventory.py:121-131 | the cursor a start takes is that of the latest unfinished run where resuming was asked for and it has one, else none |
| ScanService.StartsAsTold | src/service/inventory.py:117-143 | a start step is possible exactly for a database that is not running, and its worker begins at exactly the cursors the service object may begin at |
| ScanService.StepKeepsInv | src/service/inventory.py:181-247 | every step of every worker, start, cancel, annotation, exception and crash keeps the invariant of the whole system |
| ScanService.RunsKeepInv | src/service/inventory.py:94-247 | so every reachable state has it, for every interleaving |
| ScanService.CoverageAcrossResumes | src/service/inventory.py:117-133 | in every reachable state, everything in the catalog up to a row's cursor was visited by that run or one it resumed from, and a done row's chain visited the whole catalog |
| ScanService.CursorIsCovered | src/service/inventory.py:219-227 | the same for one state with the invariant |
| ScanService.DoneCoversAll | src/service/inventory.py:233-234 | a job that is done has, with the runs it resumed from, visited everything |
| ScanService.VisitsAscend | src/service/inventory.py:202-227 | one run visits in strictly increasing order, and its row's done, failed and skipped add up to what was persisted |
| ScanService.RowsCount | src/service/inventory.py:210-227 | in every reachable state a job's row counts, kind by kind, the outcomes persisted so far, has a finish time exactly when it is not running, and an error exactly when it failed |
| ScanService.OutcomesAreOfScans | src/service/inventory.py:249-291 | each of these outcomes is that of one scan step of the job: unread where the source raised, skipped where the hash was stored just before, scanned otherwise |
| ScanService.OneWorkerPerDatabase | src/service/inventory.py:117-143 | at most one live worker a database, and the running set is exactly the databases of workers that have not left |
| ScanService.CancelStopsSoon | src/service/inventory.py:157-164 | after a cancel request at most one more container is scanned |
| ScanService.CancelIsHeeded | src/service/inventory.py:157-164 | from a cancel request for a live job on, the job visits at most one container more |
| ScanService.SettledRowsStay | src/service/staging.py:509-513 | a row that is not running is never changed again by any step |
| ScanService.LeavesRunningOnce | src/service/staging.py:509-513 | over a whole run of the system each job leaves `running` at most once |
| ScanService.WorkerStepsDescend | src/service/inventory.py:189-247 | every step of a worker lowers a well-founded measure, so each run ends |
| ScanService.OthersLeaveMeasure | src/service/inventory.py:189-247 | no step of anybody else raises it |
| ScanService.DescentEnds | src/service/inventory.py:189-247 | nothing goes down in the order of that measure for ever |
| Reconcile.NamedGetOn | src/service/inventory.py:111-133 | scans of different databases that each name their own and find only containers labelled with it get on, in the sense of the next rows |
| Reconcile.RemovalSparesIff | src/service/inventory.py:403-426 | where another scan's containers are stored, a full run's removals take none of them if and only if it finds all of them that are in its scope |
| Reconcile.RunsKeepTrack | src/service/inventory.py:187-233 | whatever interleaves, beside scans it gets on with while it is live, what a worker has seen is stored, and what it is about to drop is unseen and includes all in its scope that is stored and unseen; where the others' removals are apart from its scope, it is exactly that |
| Reconcile.DoneRunReconciles | src/service/inventory.py:193-237 | when an uncursored run, named or not, is about to be marked done, the stored keys in its scope are exactly its catalog's, if the catalog lies in its scope and every scan live at the same time got on with it; scans over by its start do not matter |
| Reconcile.DoneChainIsStored | src/service/inventory.py:119-131 | a done job's whole catalog is stored and stays so, also after resumes, as long as from the first run of its chain on every uncursored scan spares that catalog |
| Reconcile.OnlyFullRunsForget | src/service/inventory.py:418-419 | a worker about to drop containers began without a cursor and has visited exactly its whole catalog, in order |
| Reconcile.ForgottenOnlyByFullRuns | src/service/inventory.py:403-426 | in any run of the system a stored container disappears only as the head of what a worker drops that began without a cursor and visited its whole catalog |
| Solo.StepOnCourse | src/service/inventory.py:189-247 | each own step of a worker keeps it on the course of the run taken as a whole |
| Solo.StepPaced | src/service/inventory.py:197-231 | each own step of a worker keeps it where its world lets it be: requests made and quiet, full pages behind it, cancel checks answered |
| Solo.AloneIsAfterRun | src/service/inventory.py:189-247 | a worker alone, cancel requests aside, from its start until it is about to leave has left the tables of that run, ended as its row says after the containers it persisted, and the run may end so in its world |
| Lru.SweepIsExact | src/service/pool.py:199-215 | on entries sorted by last use, sweeping from the front until one is live takes exactly those used at or before the deadline |
| Lru.PoolIsLru | src/service/pool.py:154-226 | after every history of gets, raising ones among them, sweeps and closes, in which no raising get found a dead entry of its key: the keys, in order, are the last `max_size` distinct keys by most recent use, less those not used since the latest deadline, whatever pings fail |
| Lru.PoolIsLruIff | src/service/pool.py:154-226 | over any history the pool is that at every point if and only if no raising get found a dead entry of its key |
| Lru.RefusedRebuildForgets | src/service/pool.py:163-182 | a concrete history after which it is not |
| Lru.ReachablePoolIsSorted | src/service/pool.py:199-201 | with a clock that does not go back every reachable pool is sorted by last use and within its size, also after gets that raised |
| Lru.GetKeepsWhatItReturns | src/service/pool.py:171-192 | a `get` leaves the adapter it returns last in the pool: it never evicts it |
| Pool.AdapterPool.Create | src/service/pool.py:99-124 | sizes below one and timeouts not above zero are refused, defaults filled in |
| Pool.AdapterPool.TakeExpired | src/service/pool.py:199-215 | the in-place sweep removes and returns exactly the expired front |
| Pool.AdapterPool.TakeOverCapacity | src/service/pool.py:217-226 | popping from the front leaves the last `max_size` entries and returns the others in order |
| Pool.AdapterPool.Get | src/service/pool.py:154-187 | sweep, ping, rebuild, evict and stamp in place equal one step of the value model, also when creating raises |
| Pool.AdapterPool.Reap | src/service/pool.py:228-236 | exactly the expired entries |
| Pool.AdapterPool.Close | src/service/pool.py:287-293 | everything, in order, and an empty pool |
| PoolThreads.GotConserves | src/service/pool.py:154-192 | a locked `get` drops no adapter and duplicates none: held before and created equals held after and discarded |
| PoolThreads.StepKeeps | src/service/pool.py:154-236 | each locked section and each single close keeps the ledger |
| PoolThreads.OwnedOnce | src/service/pool.py:154-192 | for every interleaving each adapter ever created is in exactly one of pool, pending closes, closed and lost, once, and the pool is within its size |
| PoolThreads.HandedOutOpen | src/service/pool.py:183-192 | when a `get` releases the lock its adapter is in the pool under its key, not closed and in nobody's pending list |
| PoolThreads.NothingLostIff | src/service/pool.py:160-182 | no adapter is lost over a run if and only if every `get` that raised found nothing expired and no entry for its key |
| PoolThreads.RefusedRebuildLeaks | src/service/pool.py:163-182 | a concrete run that loses an adapter |
| PoolThreads.DrainedIsClosed | src/service/pool.py:287-293 | closed and drained, everything ever created is closed, but for what was lost |
| Audit.AuditLogger.RotateIfFull | src/service/audit.py:105-130 | the descending renames put every file up to the last backup one place on, drop the last, and lose nothing else, whatever gaps there were |
| Audit.AuditLogger.Emit | src/service/audit.py:98-103 | rotate if full, then append one line |
| Audit.FilesAreTrail | src/service/audit.py:105-130 | after any records the files, oldest to current, are a contiguous suffix of everything emitted, cut between records, newest last, backups 1..k without a gap, each smaller than `max_bytes` plus the largest record |
| Audit.SizeIsUtf8 | src/service/audit.py:117 | the size compared with the limit is the number of UTF-8 bytes of the text |
| Audit.DroppingKeepsEnough | src/service/audit.py:116-130 | once anything is dropped at least `backups` times `max_bytes` bytes are on disk |
| Audit.ReadsBackIff | src/service/audit.py:132-142 | the current file reads back as exactly its records if and only if none holds U+0085, U+2028 or U+2029 |
| Audit.SplitLinesTells | src/service/audit.py:141 | the lines read, with what ended each of them, are the text; none has a break inside and no CR LF is split |
| RoleBuild.BuildTools | src/core/roles.py:197-234 | the edit loop on a local list equals the declared edit, with each refusal |
| RoleBuild.Build | src/core/roles.py:197-269 | a section gives a role exactly when its edit, its tools and its settings make sense; the role has its name, the granted tools, and for every setting its own value, else the parent's, else the default; refusals come in the order of the checks |
| RoleBuild.BuiltIff | src/core/roles.py:197-269 | a role builds exactly when its tool edit is of one kind and drops only what is there, the tools it ends up with are served and not none, and every other setting has its type |
| RoleBuild.BuiltToolsAreServed | src/core/roles.py:236-247 | a built role grants at least one tool and only tools the server has |
| RoleBuild.BuiltToolsAsSet | src/core/roles.py:207-234 | `tools` replaces; otherwise the role has what it inherits or adds, less what it drops |
| RoleBuild.AddingKeepsFront | src/core/roles.py:216-219 | a role that only adds tools has its parent's list as the front of its own |
| RoleBuild.BuiltSetting | src/core/roles.py:249-269 | every other setting is the role's own, else its parent's, else the default |
| RoleAnswers.BuiltFields | src/core/roles.py:249-269 | field by field, a built role has what its section says under that key, else what it inherits |
| RoleAnswers.BuiltToolOrder | src/core/roles.py:207-223 | `tools` is taken item by item; else the inherited list, then the added ones it lacks in the order first given, and of those, in order, what is not dropped |
| RoleAnswers.RefusalsComplain | src/core/roles.py:197-284 | whatever a section is refused for is so, down to the names complained of |
| Roles.RoleLoader.Resolve | src/core/roles.py:172-194 | the memoised recursion ends, and gives, success or error, what the recursion without the memo gives |
| Roles.TrailGrows | src/core/roles.py:172-194 | each step of the trail uses up a role, so resolving ends |
| Roles.ResolvedIsMeaning | src/core/roles.py:172-194 | resolving succeeds exactly when the chain of parents is finite, all known and every build on it succeeds, and gives that meaning |
| Roles.Load | src/core/roles.py:131-169 | loading succeeds exactly when every section is well formed and every role resolves; then every role is what its section builds over the role of the parent it names, whatever the order of the file; else the first failure is raised |
| Roles.DraftedTells | src/core/roles.py:150-166 | a section is accepted exactly when it is a table of known settings whose `extends` is a name, refused for what is wrong with it, and has the parent it names, an empty name being none |
| Roles.RaisedComplains | src/core/roles.py:131-194 | what a load raises is so: no sections, a malformed one, a circle through the parents, an unknown parent, or a role that does not build |
| Roles.NearestAncestorGives | src/core/roles.py:249-269 | every setting is that of the nearest ancestor that gives it, or the default |
| Roles.AddOnlyChainKeepsFront | src/core/roles.py:216-219 | down a chain that only adds tools the ancestor's list stays the front |
| Roles.MeaningIsServed | src/core/roles.py:236-247 | every resolved role has its own name and a non-empty list of served tools |
| Like.EscapeLike | src/service/staging.py:151-161 | the three replacements, one after the other, are one escape of each character |
| Like.EscapedMatchesItself | src/service/staging.py:151-161 | an escaped keyword matches itself up to ASCII case and nothing else |
| Like.FoldIff | src/service/staging.py:1084 | two characters match up to case exactly when they are the same or one ASCII letter in its two cases |
| Like.PercentMatches | src/service/staging.py:1084 | a leading `%` takes any front of the text |
| Like.PatternMeansSubstring | src/service/staging.py:1084-1111 | `%`, the escaped keyword, `%` matches a text exactly when the keyword occurs in it, up to ASCII case |
| Odbc.BuildConnectionString | src/adapter/mssql.py:531-573 | the parts appended under their branches are the intended settings, joined |
| Odbc.ValueReadsBack | src/adapter/mssql.py:576-589 | a value printed braced or bare reads back as itself by the ODBC grammar |
| Odbc.SettingsReadBack | src/adapter/mssql.py:555-573 | any list of settings so printed parses back to exactly that list |
| Odbc.SaysWhatIsMeantIff | src/adapter/mssql.py:531-573 | the whole string parses to exactly the intended settings, for every host, port, user, password and database, if and only if the driver has no closing brace |
| Odbc.IntendedIff | src/adapter/mssql.py:553-573 | these are the settings meant: server and port, encryption, and exactly those of trust, timeout, database and login that are given, or the caller's own identity without a user |
| Text.DecimalReadsBack | src/adapter/mssql.py:555 | the digits printed for the port and the timeout are those of the number, without leading zeros |
| OdbcServer.ServerOf | src/adapter/mssql.py:486-497 | the loop returns the value of the first part whose keyword is SERVER, and calls it "the server" where no part has that keyword |
| OdbcServer.SplitTells | src/adapter/mssql.py:493 | the parts, joined again, are the string, and none has a semicolon inside |
| OdbcServer.ServerIsNamedIff | src/adapter/mssql.py:486-497 | with a driver that names no server, the error names the `host,port` it was built from exactly when that has no `;`, no `}` and no `{` in front |
| OdbcServer.ServerShown | src/adapter/mssql.py:486-497 | otherwise it shows the driver's own, whatever the host |
| OdbcServer.PlainDriverNamesNone | src/adapter/mssql.py:555-556 | a driver without `;` names no server |
| Profile.ProfileNullRatio | src/adapter/datalake.py:255-260 | over any batches, the number of nulls in the whole column over its length, or none for no rows |
| Profile.ProfileMinMax | src/adapter/datalake.py:262-274 | over any batches, the least and the greatest value of the whole column in text, none when all are null |
| Profile.CountValues | src/adapter/datalake.py:276-298 | the running counter holds exactly the occurrences in the batches read, keys in the order they first appear in the column, and is approximate exactly when the column reaches the bound |
| Profile.ReadsAllOrReachesBound | src/adapter/datalake.py:289-298 | below the bound the whole column is read; else at least the bound |
| Profile.ProfileCounts | src/adapter/datalake.py:276-312 | the number of different values of what was read, or its top, marked approximate exactly when the bound is reached; without the mark both are those of the whole column, for every way values print |
| Profile.TopValuesAreTop | src/adapter/datalake.py:304-312 | the top is the best twenty different cells or all of them, best first, by count, then text, then first appearance, each with its count and its text, a null as the empty text |
| Profile.TopIsTop | src/adapter/datalake.py:304-312 | every different cell is among the top with its count, or a full top ranks before it: more frequent, or as frequent and earlier by text, or printing alike and appearing first |
| Profile.TopIsOfColumn | src/adapter/datalake.py:304-312 | the top names cells of the column only, each once, with the number of times it occurs |
| Profile.DifferentInOrder | src/adapter/datalake.py:283-288 | the counter's keys stand in the order of their first places in the column, whatever the batches |
| RenderSql.RenderSql | src/adapter/base.py:22-37 | split and interleave equals one left-to-right substitution that never rereads what it put in |
| RenderSql.NoParametersIsIdentity | src/adapter/base.py:31-37 | with no parameters the statement comes out as it went in |
| RenderSql.SurplusChangesNothing | src/adapter/base.py:33-36 | parameters beyond the last placeholder change nothing |
| RenderSql.MissingStayMarks | src/adapter/base.py:34-35 | placeholders beyond the last parameter stay |
| Keys.PublicKeyDirectory.Get | src/auth/keys.py:75-101 | a fresh entry is served, else the file is read: found and stamped, missing and dropped, unreadable and kept |
| Keys.ValidKidIff | src/auth/keys.py:19 | the names let through are those of 1 to 64 letters, digits, `_` and `-`, and each of them with one line feed behind it |
| Keys.AnswersTell | src/auth/keys.py:75-101 | over every history an answer is a refusal of the name, what the file gives at the read, or the key an earlier read saw that is not past its time |
| Keys.ServedIsLatest | src/auth/keys.py:88-101 | what is cached is what the latest read saw: since then every call for the key was answered with it or could not read, and nothing was forgotten |
| Keys.DeletedIsGoneAfterTtl | src/auth/keys.py:75-101 | a key deleted at d and not refiled is never returned at or after d + ttl, if no read of it straddles d |
| Keys.ServedLateOnlyIfStraddled | src/auth/keys.py:88-101 | one returned later was read before and stamped after its deletion |
| Keys.StraddlingReadIsServed | src/auth/keys.py:88-101 | and such a read does serve it up to its stamp plus ttl |
| Keys.DeletedIsGoneAfterTtlAndLatency | src/auth/keys.py:75-101 | d + ttl + the longest read is always enough |
| Export.WalkInventory | src/service/export.py:115-130 | the nested page loops emit the permitted containers of the key walk, each with the columns of its column walk |
| Export.AllColumns | src/service/export.py:133-148 | the inner loop gathers exactly the column walk |
| Export.KeysWalkedIff | src/service/staging.py:989-1015 | the container walk passes every container exactly when no page ends between two of one name |
| Export.ColumnsWalkedIff | src/service/staging.py:1017-1059 | the column walk passes every column exactly when no page ends between two of one ordinal |
| Export.PagedEqualsUnpaged | src/service/export.py:115-148 | with distinct names in scope and distinct ordinals, every page size gives the unpaged export |
| Export.EachPermittedOnce | src/service/export.py:115-130 | the unpaged export has each permitted container in scope once, no other, with all its columns in ordinal order |
| Export.NamelessIsStuck | src/service/staging.py:1003-1015 | a store of two containers, one without a name, on which the walk in pages of one reads its first page for ever |
| Export.StuckPageRepeats | src/service/staging.py:1003-1015 | the walk reads its first page again exactly when that page ends on an empty name with more behind it |
| Export.SameNameIsLost | src/service/staging.py:1003-1015 | any two containers of one name, in pages of one: one of them is lost |
| Export.Generate | src/service/export.py:159-290 | each format makes one chunk of a container with its columns, none shown for an unreadable one in markdown, and nothing of one without columns in dbt; the counts are those of the chunk |
| Export.ExportInventory | src/service/export.py:74-109 | over distinct names and ordinals the file has one chunk, in order of name, for each permitted container in scope, in dbt only with columns, each showing all stored columns in ordinal order, in markdown none of an unreadable one; the totals are the numbers of these containers and columns |
| Export.ExportIsWhole | src/service/export.py:74-290 | the same of the walked chunks, for every page size and format |

## Left out

- A crash inside `_scan_container`: scanning one container is one step of `ScanService`, and the laws about hashes, history and coverage hold at container boundaries (the new hash is committed before the columns).
- `schema_hash` is its own payload (no collisions), and hashes the columns as scanned; the byte layout of the digest is not modelled.
- Job ids are creation numbers, not random strings; timestamps are numbers.
- Which statistics and which sensitivity levels a scan writes: both are part of a reading, as is what an adapter answers; masking, pattern matching and the choice of profile modes are outside.
- Two database arguments that name one database (`None` and its name) count as different in the one-scan-per-database rule, as they do in the program.
- Reading back history, relationships and summaries (`changes`, `relationships`, `summary`), search ranking and its limits, and the claim check on the staging file.
- SQLite itself: a statement or a transaction is one update of a map, and LIKE is the standard's predicate with ASCII folding.
- Closing an adapter: what `close` does and whether it fails; the pool's reaper thread is the `Reap` step, its interval is not modelled. That another thread may evict an adapter still in use is how the program works.
- Pool.AdapterPool.Get: the key is given; resolving it from a database name and an engine is not modelled.
- The file system under the audit log, beyond a map from file number to text; concurrent writers are serialised by the lock.
- TOML parsing, and the text of role errors; a value's `str()` is part of the value.
- Odbc.BuildConnectionString: the adapter's URI override and the driver's own limits on values are not modelled.
- Profile.ProfileMinMax: values are totally ordered, so NaN and mixed types are outside; ratios are exact rationals rather than floats.
- Profile.ProfileCounts: the engine's counts of one batch are taken in the order their values first appear in it; only ties between cells that print alike depend on that.
- RenderSql.RenderSql: a parameter is given by its `repr`.
- The text of an export around its containers and columns, its target path and its size in bytes.
- Export.WalkInventory: needs the first page not to end on an empty name, the condition `Export.StuckPageRepeats` shows to be exact for the walk not to repeat itself.
- The catalog and schema caches of the adapter base (the same stamp-after-read cache as the key directory) and the qualification of unqualified names.
- Token signing, permission checks, command line, provisioning, the server's wiring and the other engines' queries.
