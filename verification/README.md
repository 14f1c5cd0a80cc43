# replicron: a verified model

replicron copies the rows of a source query into a table of another database. There is no transaction
across the two, so its correctness rests on arguments: upserts that can be replayed, a watermark that is
held back unless a run was clean, a token per task in one process, and an expiring lease between
processes. This project models those four arguments and the code under them, and proves them for all
inputs, all failures and all interleavings.

`dafny verify dfyconfig.toml` checks everything.

## What is modelled

* **Rows and tables** (`Tables`, `Ladder`). A target is a map from key tuple to column values; the
  reference meaning of a run is `UpsertAll`, one upsert after another in stream order. `Wrote` is the
  account every step of the engine gives of itself: who was counted, what the table may be, and on a
  steady target exactly what it is. `ReplayAbsorbed` and `WroteConcat` make the accounts compose.
* **Statements** (`SqlText`, `Statements`, `Dialects`, `Execution`, `Builders`, `Names`). The texts the
  builders emit are read back by a reader that has a grammar of its own for each dialect: its delimiters
  (sections 5.2 and 5.3 of ISO/IEC 9075:1992), its placeholders, and the qualifiers that decide whether a
  SET takes the new row's value or the old one's. What was read is given the flattened arguments and
  executed under the dialect's own rule for repeated keys. All of it comes back to `UpsertAll`.
* **The target** (`Connector`, `Staging`). A class whose statements may fail at any time and may then have
  taken effect for any of their acceptable rows. PostgreSQL's keyed bulk load is modelled with the
  sessions it runs in and the staging tables failures leave in them.
* **The engine** (`Config`, `Pages`, `Streaming`, `Engine`). Validation in place; the page callback with
  its counters, samples, checks and ladder; the reused page buffer; `RunTask` with its deferred steps.
  Every statement may fail; ghost counters of failed statements let the contracts say what must happen
  when none does. Registry, run log and target of a process share a ghost history, to which every operation
  on them is appended: it is what the contracts about order speak of.
* **Watermarks** (`Text`, `Calendar`, `TimeText`, `Watermark`). The running maximum, the literal put into
  the query and the stored form, down to the digits.
* **Runs over time** (`Replication`, `Hypotheses`, `Refinement`). A state machine of source changes, clean
  runs, failed runs and crashes, whose invariant is that no row is lost; what happens exactly when a
  hypothesis fails; and the proof that a run of the modelled engine is a trace of that machine.
* **Exclusion** (`Registry`, `Runs`, `Conduct`, `Lease`, `Instances`). The in-process registry under every
  interleaving of concurrent runs, and the modelled `RunTask`, deed by deed, as one process of it; the lease
  table's statements on text, shown equal to statements on instants, under every interleaving of clock
  readings and statements of any number of instances.
* **The run log** (`Runlog`). Records, events, sweep and pruning over any sequence of operations.

## Hypotheses

* Keys are not NULL, and the target's only unique index is exactly the configured keys. At the start the
  rows of the target carry their own key values (`Tables.WellKeyed`).
* A statement is atomic except where the model lets it fail half done. *Steady* targets, where counts and
  table are determined exactly, fail a single-row statement only over the row itself.
* The incremental query selects exactly the rows above the value its literal denotes, from a snapshot
  (`Refinement.Answers`). The tracked column keeps one kind (`Replication.WellFormed`).
* Each insert or update in the source gets a watermark value above every value that was ever there. If
  rows are never deleted, above every value now present is the same (`Hypotheses.PresentSuffices`); if
  they are, it is not enough (`Hypotheses.DeleteThenInsertLoses`). Which changes are harmless, between
  runs and during one, is decided exactly by `Hypotheses.LatePutExactly`.
* Clock readings never run backwards; times lie in years 0000 to 9999.
* Floats print and parse exactly; integers becoming floats may round in any way.

## Where the code differs from what is said about it

* `internal/connector/postgres_bulk.go:14-15` says that the staging table's name never collides. A load
  that fails after creating it leaves it in a pooled session, and every later keyed load in that session
  fails (`Staging.FailureLeavesStage`, `Staging.LeftoverBlocksSession`). It never does harm beyond that:
  a load that reports success merged its own rows only (`Staging.StagesStayFresh`).
* `README.md:357-359` of the repository says that leases are released only by their owning token. The registry
  checks the token; the database lease checks only the instance: a release takes the row exactly if the
  same instance has it (`Instances.RowGoesExactly`), be it a newer run's (`Instances.StaleReleaseDropsNewer`).
* `README.md:360` says that a run's status is finalized once. That holds within one process with one open
  store (`Runs.EveryInterleaving`); a second `Open` interrupts a live run, whose own finish then
  overwrites the interruption, and nothing else makes it false (`Runlog.FinalizedOnceExactly`).
* `internal/runlog/runlog.go:256` says that pruning keeps runs and their events. A run pruned while it still
  reports leaves events that no later prune removes (`Runlog.PrunedRunLeavesOrphan`); the exact
  conditions are `Runlog.PruneKeepsEventsExactly` and, over any operations, `Runlog.NoOrphansExactly`.
* With no synced column outside the keys the SET list is empty and no dialect's statement is well formed:
  the `if and only if` in `Statements.UpsertTextReads`, `Execution.UpsertTextUpserts` and `Staging.LoadExactly`.
* A renewal that was slow to execute can shorten a lease, and a slow acquisition can take one that is
  already over (`Instances.StaleRenewShortens`, `Instances.SlowAcquireIsBornExpired`).
* Of integers and floats in one column the tracker may miss the maximum: it never does if and only if none
  of the integers is rounded as a float (`Watermark.MixedNumbersExactly`).
* A run does not notice that its lease has lapsed, since a failed renewal is ignored; another run may then
  start beside it, exactly from that moment on (`Instances.LapsedLeaseOverlaps`).

## Model

| member | source | states |
|---|---|---|
| Refinement.IncrementalRun | internal/engine/engine.go:59-281 | one incremental run, with any failure anywhere and any edits of the source after its snapshot, is a trace of the replication machine and keeps the no-lost-row invariant; over a source left alone, if the watermark changed, and whenever some rows were streamed to the end without a failed row or a failed statement of the store, the target is in sync, and a run from such a state changes neither target nor watermark |
| Refinement.CleanRunEarns | internal/engine/engine.go:262-281 | a complete run that saw rows and failed none has a maximum to store |
| Refinement.RunIsTrace | internal/engine/engine.go:124-281 | what RunTask promises about table and watermark alone makes the run, with the edits since its snapshot, a trace from the state before it to the state after it |
| Refinement.QueryIsAnswered | internal/engine/engine.go:124-150 | the query sent, the configured text with a literal wherever the token stands, opens the window above the literal of the stored watermark, or above the first literal |
| Refinement.StoredIsMaximum | internal/engine/engine.go:262-281 | a watermark that gets stored is the highest value among the selected rows and is a value of some source row |
| Refinement.HeldRun | internal/engine/engine.go:258-281 | a run that wrote any part of its rows and stored nothing is a trace, whatever edits came after its snapshot |
| Refinement.CleanRun | internal/engine/engine.go:239-281 | a run that wrote every row and stored the maximum is a trace, whatever edits came after its snapshot, and ends in sync if there were none |
| Replication.NoLostRow | internal/engine/engine.go:124-281 | over every trace of source changes, runs, failures and crashes, at every point, each source row above the first literal and at or below the watermark is in the target with its own current value in every synced column, NULL in one it lacks |
| Replication.NextKeeps | internal/engine/engine.go:152-281 | each single step keeps the invariant, also while a run is writing |
| Replication.AdvanceKeeps | internal/engine/engine.go:258-281 | storing the maximum of a completely written window loses nothing |
| Replication.WriteKeeps | internal/engine/engine.go:204-219 | writes of a run, in any order and any number, never put an outdated row under the watermark |
| Replication.WindowIsWide | internal/engine/watermark.go:19-34 | rounding the literal down leaves no gap between one window and the next |
| Replication.CleanRunSyncs | internal/engine/engine.go:258-281 | a clean run over a source left alone leaves every row above the first literal in the target, and the watermark at the highest |
| Replication.CleanRunIsStill | internal/engine/engine.go:258-281 | after such a run, with a first literal written to the microsecond, further runs have nothing to do |
| Replication.RerunChangesNothing | internal/engine/engine.go:258-281 | from there on, and with the source left alone, any number of runs, clean, failed or crashed, change neither target nor watermark |
| Replication.LiteralsNeverDecrease | internal/engine/engine.go:132-148 | over every trace the value the next literal denotes never decreases |
| Replication.MarkStep | internal/engine/engine.go:258-281 | one clean run may lower the stored time, by less than a microsecond, and never its literal |
| Hypotheses.LatePutExactly | internal/runlog/runlog.go:286-297 | a change with any watermark value, at any moment, costs no row in any later state if and only if: unless the row is at or below the first literal, or above the watermark and above all a run in progress has selected, it agrees with the version that run selected, if any, and the target has it or, with the watermark not yet past it, gets it from that run |
| Hypotheses.LatePutCases | internal/runlog/runlog.go:286-297 | between runs that is: above the watermark, or already in the target; during a run that did not select the key: above all it selected and above the watermark, or already in the target |
| Hypotheses.InsecureIsLost | internal/engine/engine.go:258-281 | any other change is lost at once, by the next write of the run in progress, or when that run ends clean |
| Hypotheses.LateRowNeverSelected | internal/engine/engine.go:132-148 | a row that comes in at or below the literal is in no later window |
| Hypotheses.PresentSuffices | internal/engine/engine.go:124-150 | without deletes, above everything present is above everything ever present |
| Hypotheses.TightStays | internal/engine/engine.go:124-150 | runs leave that so: only a delete can take the highest value away |
| Hypotheses.DeleteThenInsertLoses | internal/engine/engine.go:124-150 | with a delete it is not: a trace after which such an insert is lost |
| Hypotheses.StaleWriteExactly | internal/engine/engine.go:63-76 | a write by an overlapping older run loses the newer row if and only if the two differ in a synced column |
| Engine.RunTask | internal/engine/engine.go:59-256 | skipped exactly while the name is held; otherwise the run first takes the token, then starts its record, then does nothing but send statements to the target, report to that record and store this task's watermark, then finishes the record, and last gives the token back; ok + fail = rows seen; the number of samples is min(20, fail); status; the table Wrote allows, in insert mode Grew; the watermark moves only after a complete stream with every row written, to the maximum; the log gets a start, fair events and at most one finish with this result; an incomplete stream has its reason; without a failed statement of the store the watermark does move when earned, and the record is closed; the registry is as before |
| Engine.Body | internal/engine/engine.go:95-256 | the same for everything between the deferred steps, on every exit, with nothing done that a run may not do while it holds the token |
| Engine.Transfer | internal/engine/engine.go:152-256 | stream, status and watermark from one result set |
| Engine.FinalizeWatermark | internal/engine/engine.go:258-281 | held on failed rows, kept without a value, else the tracked maximum is stored unless the statement fails; what was decided is reported |
| Engine.ResolveQuery | internal/engine/engine.go:122-150 | the configured text up to the first place of ":watermark", there the literal of the stored watermark or the first one, and the rest likewise; it fails exactly without the token, on an unreadable or unprintable watermark, or with the store |
| Engine.OneQuery | internal/engine/engine.go:122-150 | a task and a stored watermark make at most one such query |
| Engine.SettingsDoNotMatter | internal/engine/engine.go:186-224 | page size, batch size and bulk change neither the table nor any count of a complete upsert run: the table is the fold of exactly the admissible rows |
| Engine.RerunLeavesTable | internal/engine/engine.go:258-261 | a second complete run without failures over the same result set leaves the table of the first, repeated keys and unsynced columns included |
| Engine.LogSkipped | internal/engine/engine.go:64-73 | a skipped trigger starts a record of its own and closes it, and does nothing else |
| Pages.PageHandler.OnPage | internal/engine/engine.go:154-238 | a page is refused, if and only if it does not pass after the rows before it, without touching table, counters or log; otherwise all its rows are counted and written or failed, the tracker folds them in, and the counts so far are reported unless the store fails |
| Pages.PageHandler.CheckPage | internal/engine/engine.go:158-184 | exactly which pages pass: names, key and incremental columns on the first page, column counts, comparable watermark values |
| Pages.PageHandler.CheckKeys | internal/engine/engine.go:162-174 | exactly when the first page has the columns the run depends on |
| Pages.PageHandler.TakePage | internal/engine/engine.go:186-226 | a checked page is written, counted as seen and added to the account |
| Pages.PageHandler.WritePage | internal/engine/engine.go:186-224 | the chunks partition the page, are full except the last, respect the parameter limit, and the page is accounted for |
| Pages.PageHandler.WriteRung | internal/engine/engine.go:190-222 | bulk, batch, single rows: whatever failed half done, the chunk's account is that of its rows upserted one by one, or in insert mode added |
| Pages.PageHandler.RowByRow | internal/engine/engine.go:205-219 | each row is counted written or failed; the samples are the messages of the first twenty failures; in insert mode only streamed rows are added, and all of them if none failed |
| Pages.PageHandler.WriteChunk | internal/engine/engine.go:283-288 | one attempt at a chunk, by mode: all of it, or a part of its admissible rows upserted, or of its rows added |
| Pages.PageHandler.LogProgress | internal/engine/engine.go:232-236 | a progress event has ok + fail = seen, and its failure changes nothing |
| Pages.ClampBatchFits | internal/engine/engine.go:290-301 | at least one row, at most the configured batch, rows * cols at most 2000 whenever cols is, one row otherwise, and no smaller than the limit asks for |
| Pages.SortedCols | internal/engine/engine.go:303-310 | every column name of the row once, in ascending order |
| Pages.Climbed | internal/engine/engine.go:190-222 | a failed bulk load and a failed statement beforehand are absorbed |
| Pages.FoldPage | internal/engine/watermark.go:102-121 | the tracker's fold over all pages is the fold over their concatenation |
| Streaming.Stream | internal/connector/connector.go:153-201 | the accepted pages are the result set cut into full pages and a last one; after an error all accepted pages are full; the total is the rows accepted; no error exactly when everything was read and accepted, and it ends early only because the source broke or the next page does not pass |
| Streaming.HandOver | internal/connector/connector.go:182-199 | one call of the callback advances the total by its page or not at all |
| Streaming.ScanRow | internal/connector/connector.go:174-181 | a tuple becomes a row by column name, the last of several columns of one name winning: text bytes as the string, every other value as it is |
| Streaming.RowsAre | internal/connector/connector.go:174-181 | row i of a result set is its tuple i so read |
| Streaming.OneRow | internal/connector/connector.go:174-181 | a tuple makes one row |
| Streaming.RowsShareColumns | internal/connector/connector.go:174-181 | all rows of a result set have the same columns, and none holds bytes |
| Ladder.WroteConcat | internal/engine/engine.go:186-224 | accounts of consecutive pieces compose |
| Ladder.RetryAbsorbs | internal/engine/engine.go:204-219 | an account stands unchanged after a failed attempt that wrote any part of the same rows |
| Ladder.AdmittedExactly | internal/engine/engine.go:205-219 | the rows a steady run writes are exactly the admissible ones |
| Ladder.InsertAllAdds | internal/connector/connector.go:225-242 | a successful insert adds each row once, under a key that was free |
| Ladder.RetryGrows | internal/engine/engine.go:204-219 | in insert mode an attempt that added a part beforehand shows up as failures, not as lost or doubled rows |
| Tables.ReplayAbsorbed | internal/connector/connector.go:203-223 | writing any rows of a sequence first, in any order and number, and then the whole sequence equals the whole sequence alone, with repeated keys and unsynced columns |
| Tables.UpsertAllLastWins | internal/connector/connector.go:314-330 | per key the fold is what was there, or the defaults, with the last streamed row's own value in every synced column and NULL in one it lacks |
| Tables.LastIsLast | internal/connector/connector.go:314-330 | that row is the last of the sequence with this key |
| Tables.InsertAllExactly | internal/connector/connector.go:225-242 | an insert of several rows goes through if and only if no key repeats and none is taken |
| Tables.InsertKeyIs | internal/connector/connector.go:225-242 | with the key columns among those listed a row goes in under its own key |
| Tables.UpsertAllConcat | internal/engine/engine.go:186-224 | folding in pieces is folding the whole |
| Tables.SetListSuffices | internal/connector/connector.go:320-328 | leaving the keys out of the SET list changes nothing |
| Tables.OrderIrrelevant | internal/connector/connector.go:314-330 | rows of different keys commute |
| Dialects.DialectsAgree | internal/connector/sqlserver.go:20-55 | every dialect that accepts a batch leaves the sequential table; MERGE and PostgreSQL's ON CONFLICT accept exactly the batches without repeated keys |
| Dialects.SingleRowAgrees | internal/engine/engine.go:210-219 | a single row is accepted by every dialect, so row by row restores the result |
| Dialects.AtOnceIsFold | internal/connector/sqlserver_bulk.go:80-113 | the set-based MERGE of distinct keys is the sequential fold |
| Dialects.AssignOwn | internal/connector/connector.go:314-330 | and setting columns to their own old values changes nothing |
| Statements.UpsertTextReads | internal/connector/mysql.go:20-35 | in its dialect's grammar the built upsert reads back as rows of parameters, matched on the keys, with every other column set to the new row's value and every column inserted, for any names, if and only if some column is not a key |
| Statements.StageTextReads | internal/connector/sqlserver_bulk.go:80-113 | the same for the statement that applies a staging table |
| Statements.InsertTextReads | internal/connector/connector.go:306-312 | the built insert reads back as rows of parameters put in under the listed columns, for any names |
| Statements.InsertStageTextReads | internal/connector/sqlserver_bulk.go:67-68 | the same for the insert of a staging table |
| Execution.UpsertTextUpserts | internal/connector/connector.go:203-223 | text plus flattened arguments, executed, upsert the rows in order, in each dialect |
| Execution.StageTextUpserts | internal/connector/postgres_bulk.go:52-62 | a filled staging table applied by its statement does the same |
| Execution.InsertTextInserts | internal/connector/connector.go:225-242 | the insert's text plus flattened arguments, executed, put in exactly the rows, or fail over a key that repeats or is taken |
| Execution.FlatArgsAt | internal/connector/connector.go:244-252 | argument r*cols+c is row r's own value for column c, NULL if it has none |
| Execution.BoundRowsAre | internal/connector/connector.go:288-304 | placeholders bound to the flattened arguments give back the rows |
| SqlText.QuoteRoundTrip | internal/connector/connector.go:266-270 | any string survives any of the quotings, and the scan stops at the closing quote if and only if no such quote follows |
| SqlText.ListRoundTrip | internal/connector/connector.go:272-286 | a list as the connectors join it reads back, in the dialect's grammar, as exactly its elements, each with the new row's value |
| SqlText.AssignmentReads | internal/connector/connector.go:314-330 | an element of a SET list reads as an assignment of the new row's value, in every dialect |
| SqlText.BareOperandReads | internal/connector/connector.go:314-330 | without its qualifier the name in a SET list would be the row's own old value, in PostgreSQL and in a MERGE no value at all |
| SqlText.MatchReads | internal/connector/sqlserver.go:20-55 | an element of a MERGE's ON matches the target's column with the source's |
| SqlText.RowsRoundTrip | internal/connector/connector.go:288-304 | the values clause lists the parameters 0..n*cols-1 once each, in order, by rows |
| SqlText.MatrixAt | internal/connector/connector.go:288-304 | the cell of row r and column c is parameter r*cols+c |
| Builders.JoinedList | internal/connector/connector.go:272-286 | the list loops build the joined list |
| Builders.SetList | internal/connector/postgres_bulk.go:71-84 | the SET list is exactly the columns outside the keys, in order |
| Builders.ValuesClause | internal/connector/connector.go:288-304 | the builder loop emits the rows of placeholders |
| Builders.FlattenArgs | internal/connector/connector.go:244-252 | the argument loop emits the flattened rows |
| Builders.BuildUpsert | internal/connector/connector.go:314-330 | the three upsert builders emit the text whose meaning is proved |
| Builders.BuildMergeTail | internal/connector/sqlserver.go:20-55 | the MERGE's ON, SET and VALUES parts |
| Builders.BuildStaged | internal/connector/sqlserver_bulk.go:78-113 | the two statements that apply a stage |
| Builders.BuildInsert | internal/connector/connector.go:306-312 | the insert builder emits the text whose meaning is proved |
| Builders.BuildStagedInsert | internal/connector/sqlserver_bulk.go:67-68 | and so does the insert out of the staging table |
| Builders.RowCopySource.Next | internal/connector/postgres_bulk.go:94-105 | one row's values per call until the rows are used up |
| Builders.CopyAll | internal/connector/postgres_bulk.go:94-108 | draining the COPY source stages every row once, in order |
| Builders.CopyCarriesArgs | internal/connector/postgres_bulk.go:94-108 | COPY and bound parameters carry the same values in the same order |
| Names.SplitTablePathExact | internal/connector/connector.go:22-36 | a path is accepted with these parts if and only if they are one or two identifiers joined by a dot |
| Names.IdentifierExactly | internal/connector/connector.go:20 | the identifiers are the words of ASCII letters, underscores and digits, no digit first |
| Names.ValidateColumns | internal/connector/connector.go:38-45 | accepted if and only if every name is an identifier |
| Connector.Target.UpsertRows | internal/connector/connector.go:203-223 | success upserts all rows in order; failure leaves a part of the admissible ones; a single row on a steady target succeeds exactly if admissible |
| Connector.Target.InsertRows | internal/connector/connector.go:225-242 | success inserts all rows with no key taken; nothing present is ever changed, and only these rows are added; on a steady target a single row goes in if and only if the names are allowed, its key is free and the constraints take it |
| Connector.Target.ApplyInsert | internal/connector/connector.go:237-241 | what running a statement that says the insert may leave: all rows, or some of them and nothing else |
| Connector.Target.BulkLoad | internal/connector/bulk.go:11-33 | with keys, the same promises as UpsertRows; without, those of InsertRows; valid names given, always unsupported by MySQL and SQLite, and never by SQL Server |
| Connector.Target.BulkPostgres | internal/connector/postgres_bulk.go:25-69 | on whatever session with whatever faults, it merges exactly its own chunk or leaves the target alone |
| Connector.Target.LoadOnSession | internal/connector/postgres_bulk.go:33-64 | the create, copy, merge and drop steps do what the load function says |
| Connector.Target.BulkSqlServer | internal/connector/sqlserver_bulk.go:22-76 | success merges (or inserts) exactly the rows sent; failure leaves a part of the admissible ones |
| Connector.Target.SendRows | internal/connector/sqlserver_bulk.go:49-65 | what was sent and flushed is every row's values in order |
| Connector.AdmitsExactly | internal/connector/connector.go:203-223 | a row can be written if and only if the names are allowed, some column is not a key and the constraints take it |
| Staging.LoadExactly | internal/connector/postgres_bulk.go:25-69 | when a keyed load succeeds, as an if and only if, and that it then merged its own rows |
| Staging.StagesStayFresh | internal/connector/postgres_bulk.go:25-69 | over any sequence of loads with any faults and leftovers the target is what the reported rows, and only those, make of it |
| Staging.LeftoverBlocksSession | internal/connector/postgres_bulk.go:14-16 | a leftover staging table closes its session to every later load |
| Staging.FailureLeavesStage | internal/connector/postgres_bulk.go:40-62 | a load leaves a staging table in its session if and only if it created it and then failed, or failed to drop it |
| Staging.SessionLostExactly | internal/connector/postgres_bulk.go:25-69 | after any sequence of loads a session has lost its bulk path if and only if it had before, or some load in it got past its create and then failed or did not drop its table |
| Watermark.Tracker.Observe | internal/engine/watermark.go:102-121 | folds a page into the maximum, or stops at the first value that does not compare |
| Watermark.FoldConcat | internal/engine/watermark.go:102-121 | page boundaries do not matter |
| Watermark.FoldOutcome | internal/engine/watermark.go:36-66 | it fails exactly on two or more non-NULL values not all times, all strings or all numbers; otherwise it ends with a value observed, or none if there was none |
| Watermark.FoldIsMaximum | internal/engine/watermark.go:102-121 | on one kind the result is the maximum of the non-NULL values |
| Watermark.FoldIsMaximumOfNumbers | internal/engine/watermark.go:53-64 | integers and floats may mix: as long as no integer is rounded as a float the result is the maximum |
| Watermark.MixedNumbersExactly | internal/engine/watermark.go:53-64 | over columns that mix floats with integers from a set, the tracker always ends with the maximum if and only if none of those integers is rounded as a float |
| Watermark.RoundedMisleads | internal/engine/watermark.go:53-64 | every integer that is rounded misleads it, together with what it is rounded to |
| Watermark.MixedNumbersMayRound | internal/engine/watermark.go:53-64 | for instance 2^53 + 1 after 2^53 as a float |
| Watermark.BeforeIsStrictOrder | internal/engine/watermark.go:39-66 | the comparison is a strict total order on each kind |
| Watermark.LiteralDenotes | internal/engine/watermark.go:15-34 | a watermark has a literal if and only if it is a time, number or string, and the source reads it as the value, times rounded down to the microsecond |
| Watermark.RenderedNeverSkips | internal/engine/watermark.go:19-34 | the rendered window contains every later value and reaches back less than a microsecond |
| Watermark.RenderedNeverFalls | internal/engine/engine.go:138-148 | a value selected by a literal renders no lower than it |
| Watermark.StoreRoundTrip | internal/runlog/runlog.go:299-329 | a watermark is storable if and only if it has a kind, and reads back unchanged |
| TimeText.LeaseTextOrder | internal/lease/lease.go:25-27 | comparing two lease timestamps as text is comparing the instants |
| TimeText.LeaseTextReads | internal/lease/lease.go:25-27 | a lease timestamp denotes its instant to the nanosecond |
| TimeText.LiteralTextOrder | internal/engine/watermark.go:21-22 | rendered times sort as the instants cut to the microsecond |
| TimeText.LiteralFloor | internal/engine/watermark.go:21-22 | a time literal denotes the floor of the instant to the microsecond, without trailing zeros |
| TimeText.StoredRoundTrip | internal/runlog/runlog.go:301-302 | the stored form of a time loses nothing |
| Calendar.DateOrder | internal/lease/lease.go:25-27 | calendar order is day order, leap years included |
| Calendar.YearsCounted | internal/lease/lease.go:25-27 | the years before a year have 365 days each and a leap day for every fourth but every hundredth, and for every four hundredth |
| Calendar.MonthsCounted | internal/lease/lease.go:25-27 | the months before a month have the closed form of the Gregorian calendar |
| Text.PadOrder | internal/lease/lease.go:25-27 | fixed-width numerals sort as numbers |
| Text.LexExactly | internal/engine/watermark.go:46-51 | one string is below another if and only if where they first differ it has the lower character or has ended |
| Text.ContainsExactly | internal/engine/engine.go:127 | the token test finds the token if and only if it stands somewhere |
| Text.SubstitutedExactly | internal/engine/engine.go:147 | the text with the pattern put in by position is the one that the replacement computes, and no other |
| Text.ReplaceAfter | internal/engine/engine.go:147 | a replacement puts the new text for the first occurrence and goes on behind it |
| Text.ReplaceNone | internal/engine/engine.go:147 | without an occurrence the text stays as it is |
| Config.Validate | internal/config/config.go:95-113 | passes if and only if there is a task, every definition passes and no name repeats; then all are normal and runnable; otherwise those before the offender are normal and those after it untouched |
| Config.ValidateTask | internal/config/config.go:115-193 | passes exactly the acceptable definitions, a named environment variable before a literal DSN, and turns them, in place, into their normal form |
| Config.ValidateGoal | internal/config/config.go:132-151 | the target's part |
| Config.ValidateTimes | internal/config/config.go:153-171 | the schedule and timeout part |
| Config.ValidateIncremental | internal/config/config.go:173-183 | the incremental part |
| Config.NormalIsStable | internal/config/config.go:185-192 | a normal definition meets what the engine needs and is not changed by another validation |
| Config.NormalDefaults | internal/config/config.go:185-192 | the defaults: enabled, pages of 5000, batches of 500, thirty minutes, upsert |
| Registry.Registry.Acquire | internal/registry/registry.go:42-52 | refused exactly while the name is held; else a fresh token of the next generation holds it; the history gets one or the other |
| Registry.Registry.Release | internal/registry/registry.go:54-64 | only the very token that holds the name drops it, and only that enters the history; nil, stale and repeated releases change nothing |
| Runs.EveryInterleaving | internal/engine/engine.go:63-93 | in every interleaving of concurrent runs: one holder per task, a holder's finish before the next holder's start, no record closed twice, each open record running |
| Conduct.RunIsSegment | internal/engine/engine.go:59-256 | what RunTask does, deed by deed, is an acquire, start, report, finish, release segment of one process in the interleaving model, which has the token after each deed but the last |
| Conduct.SkippedIsSegment | internal/engine/engine.go:63-73 | and so are a skipped trigger's refusal, start and finish |
| Runs.AtMostOneHolder | internal/engine/engine.go:63-76 | two calls in progress never hold one task |
| Runs.StepKeepsTokens | internal/registry/registry.go:42-64 | each step keeps exactly one carrier per held name, and a stale or repeated release is a no-op |
| Runs.StepKeepsHistory | internal/engine/engine.go:74-93 | each step keeps the order of starts and finishes |
| Runs.StepKeepsIds | internal/runlog/runlog.go:108-135 | each step keeps open records distinct and running, and closed ones closed once |
| Runs.GenerationsIncrease | internal/registry/registry.go:48-50 | later tokens have larger generations until the 64-bit counter wraps |
| Runs.SkippedAlsoRuns | internal/engine/engine.go:69-71 | while a trigger is being skipped one task has two running records |
| Lease.Lease.Acquire | internal/lease/lease.go:66-87 | success means the name was free after the eviction, and always follows from that unless a statement fails; the row is then this instance's for a TTL from the clock reading |
| Lease.Lease.Release | internal/lease/lease.go:89-98 | deletes the row exactly if this instance owns it, unless the statement fails |
| Lease.Lease.Renew | internal/lease/lease.go:100-111 | extends the row exactly if this instance owns it, unless the statement fails |
| Lease.EvictsExactlyExpired | internal/lease/lease.go:71-75 | the DELETE on text removes exactly the rows whose expiry the clock reading has passed |
| Lease.OtherStatementsAgree | internal/lease/lease.go:76-111 | the other statements on text are those on instants |
| Instances.MutualExclusion | internal/lease/lease.go:66-111 | while the clock is within the expiry of the row A holds and A has not released it, in every interleaving, the row stays A's and no Acquire succeeds, however stale the clock readings |
| Instances.RenewedInTime | internal/lease/lease.go:66-111 | while the holder renews before a TTL has passed since its last clock reading, and does not release, in every interleaving, the row stays its and nobody acquires the task |
| Instances.OneRunAtATime | internal/engine/engine.go:63-76 | in every interleaving, as long as the runs of a task keep its row unexpired and release it only at their end, no two runs of it, in whatever instances, are in progress at once, and the one there is has the row |
| Instances.LapsedLeaseOverlaps | internal/engine/engine.go:227-231 | with the clock past the expiry of a run in progress, and only then, an undisturbed Acquire starts a second run beside it |
| Instances.GoodUntilExpiry | internal/lease/lease.go:66-111 | a lease just taken is good until the expiry it was given, if no older renewal is in flight |
| Instances.RowGoesExactly | internal/lease/lease.go:71-111 | a row goes if and only if its owner releases it or a DELETE's reading is past its expiry, and only its owner's renewal changes it |
| Instances.AcquireSucceedsExactly | internal/lease/lease.go:68-87 | with nothing between its DELETE and INSERT, an Acquire succeeds if and only if the name is free or expired at its reading |
| Instances.TextRunsAlong | internal/lease/lease.go:71-111 | step by step the text table is the table of instants |
| Instances.TextStaysAlong | internal/lease/lease.go:71-111 | over whole traces too |
| Instances.TextRowStays | internal/lease/lease.go:66-111 | exclusion in the database's own terms: the text row stays the holder's |
| Instances.StaysValid | internal/lease/lease.go:71-78 | no reading is from the future and no expiry further away than a TTL |
| Instances.StaleReleaseDropsNewer | internal/lease/lease.go:91-98 | a late release drops a newer lease of the same instance |
| Instances.SlowAcquireIsBornExpired | internal/lease/lease.go:71-78 | a lease is already over when taken if and only if the INSERT came later than a TTL after the reading |
| Instances.RenewRevives | internal/lease/lease.go:103-111 | a renewal revives an expired row nobody has evicted |
| Instances.StaleRenewShortens | internal/lease/lease.go:103-111 | exactly when a renewal shortens a lease |
| Runlog.Store.Open | internal/runlog/runlog.go:31-54 | opening closes exactly the runs a previous process left running, as interrupted and with an error text, and leaves all else |
| Runlog.Store.StartRun | internal/runlog/runlog.go:108-117 | a running record of this task and trigger, with nothing counted, under the next id, or nothing |
| Runlog.Store.FinishRun | internal/runlog/runlog.go:119-135 | status, counts, error and samples of the result in the record of that id, whatever its status was, and nothing else |
| Runlog.Store.AppendEvent | internal/runlog/runlog.go:137-147 | one event more, or nothing |
| Runlog.Store.Prune | internal/runlog/runlog.go:256-270 | both deletes, or only the first, or nothing |
| Runlog.Store.GetWatermark | internal/runlog/runlog.go:272-284 | the stored value as read back; absent only for a task that never stored one |
| Runlog.Store.SetWatermark | internal/runlog/runlog.go:286-297 | the encoded value for this task only, or nothing |
| Runlog.LogStaysValid | internal/runlog/runlog.go:94-135 | over any operations, running exactly without a finish time, and ids within the counter |
| Runlog.IdsIncrease | internal/runlog/runlog.go:108-117 | ids strictly increase and are never reused, whatever is pruned |
| Runlog.OpenLeavesNothingRunning | internal/runlog/runlog.go:94-106 | right after Open nothing is running |
| Runlog.FinalizedOnceExactly | internal/runlog/runlog.go:94-135 | whatever happens to the log between a run's start and its own finish, that finish is the first finalization of its record if and only if the store was not opened in between; if it was, the record was interrupted, and the finish overwrites that |
| Runlog.FinishOverridesInterruption | internal/runlog/runlog.go:119-135 | the shortest such case |
| Runlog.PruneKeepsNewest | internal/runlog/runlog.go:256-270 | pruning leaves exactly the `keep` largest ids, ten thousand if `keep` is not positive, untouched |
| Runlog.PruneKeepsEventsExactly | internal/runlog/runlog.go:256-270 | exactly their events remain if and only if no event was already without its run |
| Runlog.PrunedRunLeavesOrphan | internal/runlog/runlog.go:137-147 | a run pruned while reporting leaves an event nothing removes |
| Runlog.NoOrphansExactly | internal/runlog/runlog.go:137-147 | over any operations, the log stays free of events without a run if and only if no event is recorded for a run already pruned |
| Runlog.NoOrphansWithoutLatePrune | internal/runlog/runlog.go:256-270 | in one direction even for ids never given |

## Left out

- Drivers, connections, pings, pooling beyond the staging tables of sessions, contexts: a statement is a step that may fail; a timeout is a broken result set or failing statements.
- Configuration files: YAML, the environment, cron expressions and duration texts are parameters of validation.
- Floats: printing and parsing are parameters, NaN does not occur; the order of integers turned into floats is left open.
- The CREATE and DROP texts of staging tables and the literal contents of error messages.
- MySQL assigns the columns of a SET list from left to right, each seeing those before it; here all see the row as it was. The built lists take new values only, so the order does not matter for them.
- Other database errors inside a session, such as a staging column that cannot hold a value: they are the arbitrary faults of a step.
- MySQL backslash escapes, collations and session time zones: standard quoting, one string order, UTC.
- NULL keys, and target tables with further unique indexes.
- Events are not modelled as JSON, and listing, counting and reading back runs is not modelled.
- The command line, the daemon, metrics, logs and the web page.
- Pages are handed to the callback as values, so a callback that kept a page beyond its call would not be noticed.
- Engine.RunTask: insert mode with bulk and keys configured is excluded, because the bulk path then upserts; the lease's renewal after each page is a step of `Instances`, not of the page callback; durations are not part of the result.
- Engine.Body: the same exclusion as Engine.RunTask.
- Engine.Transfer: the same exclusion as Engine.RunTask.
- Connector.Target.InsertRows: the target has a unique index among the synced columns; a table without one, or with a generated key, is not modelled in insert mode.
- Refinement.RunIsTrace: the edits are placed after the snapshot and before the writes; that no row is lost at any moment in between, in any interleaving, is stated of the machine (`Replication.NoLostRow`).
- Hypotheses.PresentSuffices: assumes that the source once had a row with a watermark value.
- Replication.CleanRunIsStill: asks for a first literal written to the microsecond; a finer one could lie above the literal of a later watermark.
- Watermark.LiteralDenotes: stated for years 0000 to 9999.
- Runs.EveryInterleaving: one process with one open store, so no sweep and no prune among its steps; those are in `Runlog`.
- Instances.MutualExclusion: one clock that all instances read; skew between hosts is not modelled.
