# hs-uploader, verified

hs-uploader is a store-and-forward engine: producers append decoded radio spots to
a queue file (the sink), and one pipeline per destination reads its own rows past a
send record (its cursor), ships them, retries what failed from a queue of its own,
and moves the record on. This project models that engine in Dafny and proves what it
promises over whole runs.

- `Cursors` - the values a send record may hold, the order each source puts on them,
  and the store's verdict on a write (`watermark/sqlite.py`, the sources' `cursor_is_after`).
- `Sink`, `Selection`, `KeySplit` - the rows of the sink, what one SqliteSource selects
  from them, batch after batch, and the split of `psk.spots` between two producers.
- `Ledger`, `WatermarkStore`, `Protocol`, `Delivery` - the delivery protocol. `Delivery`
  is the imperative pipeline: its store, its sink and its source are objects; rows
  arrive and the process may die between any two transactions or transport calls; the
  gate, the clock and every outcome are arbitrary. `Ledger` keeps the ghost books (every
  row ever inserted, every batch acked) and `Protocol` proves, step by step, that the
  books stay straight.
- `Migration` - the store migration that splits one shared send record into two.
- `Rebuild`, `Running` - a new pipeline set built between pumps from what still fits of
  the old one, and swapped into the uploader. Every source, transport and fallback is
  numbered as it is built, so "closed" and "still held" can be told apart whatever is aliased.
- `Ipfix`, `PskCodec`, `PskTransport` - IPFIX messages as sections 3.1, 3.3, 3.4 and 7 of
  RFC 7011 read them, the PSKReporter encoder read back by that reader, its chunking, its
  retry blob, and the sequence numbers of a connection.
- `Toml`, `SwitchTree`, `TomlText`, `SwitchText`, `SwitchFile`, `SwitchState` - the switch
  files: the table rules of TOML v1.0.0, a line reader for the part of TOML the files use,
  the printer, and what a written file reads back as.
- `Gate`, `Gating` - the sink gate: `Gate` is a state machine whose steps are the lock
  sections of any number of threads, each deciding for a pipeline at once; `Gating` holds
  the object itself, each of its methods proved to be such steps.
- `WsprCycles`, `WindowDedup`, `WsprnetDedup` - when a WSPR cycle may ship, the window
  query that ships one row of each partition, and the deduplication before a post.

Some promises the code's documentation makes do not hold on every input. Each of these
is modelled as the code stands, shown to fail by an example, and given its exact condition
(example; condition):

- a partial ack that commits more than it accepted - `Ledger.PartialAckLosesARow`;
  `Ledger.PartialCommitKeepsIff`, `Protocol.CutDeleteKeeps`
- a commit that deletes rows the source never sent - `Ledger.UnselectedRowGoesUnsent`;
  `Ledger.CommitDeletesUnsentIff`
- unreadable rows the send record never gets past - `Ledger.UnreadableRowWedges`;
  `Ledger.WedgedIff`
- a source anchored anew after a restart - `Protocol.RestartLosesARow`;
  `Protocol.ReanchorKeepsIff`
- cursors that do not decode - `Cursors.UndecodableOfferMovesTheRecordBack`;
  `Cursors.AfterItselfIffNotOrderable`
- modes that SQL and Python trim differently - `Sink.TabbedModeParts`;
  `Sink.ScopeAgreesWithWriterIff`
- a retry the dry run misjudges - `Migration.ExposedRetryExists`; `Migration.PreviewExactIff`
- a pipeline stopped by the store's version but still in the build -
  `Running.FallingVersionClosesTheBuild`; `Running.OpenAfterSwap`
- a text field of 255 octets - `PskCodec.FullFieldIsMisread`; `PskCodec.SpotReadsBackIff`
- a packet over a cap that is no multiple of 4 - `PskCodec.OddCapIsExceeded`;
  `PskCodec.PacketWithinCapIff`
- a key that ends in a newline - `SwitchFile.NewlineKeyIsNotRead`; `SwitchFile.PrintsBackIff`
- two threads deciding for one pipeline key - `Gate.SharedKeyBreaksTheTables`;
  `Gate.TablesStandIff`
- a LIMIT that passes a partition over - `WindowDedup.LimitLosesAPartition`;
  `WindowDedup.PassedOverIff`
- a window source that deletes what it shipped - `WindowDedup.DeletingShipsTwice`;
  `WindowDedup.DeletingOffersAgainIff`
- the place of a deduplicated spot - `WsprnetDedup.WinnerMovesBack`;
  `WsprnetDedup.PlaceIsTheFirstsIff`

A store transaction is one step. Outcomes, the clock, the gate's answer, the rows that
arrive, crashes, sockets and the pipelines a builder returns for an entry (newly made
objects, see below) are arbitrary values (`*`), so every theorem holds whatever they are.

## Model

| member | source | states |
|---|---|---|
| `Cursors.StrictWeakOrder` | src/hs_uploader/sources/files.py:233-254 | each source's `cursor_is_after` (by id, by mtime, by text) is a strict weak order on the values it decodes |
| `Cursors.AfterItselfIffNotOrderable` | src/hs_uploader/sources/sqlite.py:489-504 | and on no other: a cursor lies after itself exactly when its source cannot decode it |
| `Cursors.EndsAtTheMaximum` | src/hs_uploader/watermark/sqlite.py:336-433 | any interleaving of `advance_cursor` and `start_cursor` by any number of writers ends at one of the values offered, and no value offered (nor the first) lies after it |
| `Cursors.StepNeverBack` | src/hs_uploader/watermark/sqlite.py:390-433 | one write never moves the record back; REFUSED exactly when the stored value lies after, and then nothing changes; REFRESHED exactly on a tie, and then only `last_ack` does |
| `Cursors.UndecodableOfferMovesTheRecordBack` | src/hs_uploader/watermark/sqlite.py:363-379 | an offer that does not decode overwrites a record, after which a smaller id is accepted: why the two above speak of decodable values |
| `Sink.ScopeAgreesWithWriterIff` | src/hs_uploader/sink/writer.py:412-432 | the SQL producer scope puts a row naming no producer where the writer infers it, exactly when Python reads no MSK144 in its mode or the mode holds only ASCII letters, digits and spaces |
| `Sink.TabbedModeParts` | src/hs_uploader/sources/sqlite.py:110-117 | a mode followed by a tab goes to different producers on the two sides |
| `Sink.SqlMatchIsPyMatch` | src/hs_uploader/sources/sqlite.py:110-117 | whatever SQL reads as MSK144 Python does too |
| `Selection.QueryIsBetween` | src/hs_uploader/sources/sqlite.py:632-698 | a batch query yields exactly the selected rows between the cursor and its own last id, and leaves exactly those past it |
| `Selection.IterOneBatch` | src/hs_uploader/sources/sqlite.py:584-630 | the one batch carries the readable rows of that span, and its cursor is the span's last id, corrupt rows included |
| `Selection.Drain` | scripts/prove_key_split.py:96-111 | draining by cursor, in batches of any size, ships every selected row past the start once, in id order |
| `KeySplit.SplitIff` | scripts/prove_key_split.py:161-177 | for every sink the two producer drains are disjoint, and together equal the shared drain exactly when every row of the shared drain fits a producer |
| `KeySplit.RenderedSourcesShareOutRow` | scripts/prove_key_split.py:80-93 | with the mode clauses the rendered pipelines carry, a row goes to one producer or none, and to one exactly when the shared source took it and its producer decodes its mode |
| `KeySplit.ScopesShareOutRow` | src/hs_uploader/sources/sqlite.py:551-582 | without them, a row goes to at most one producer, and to one exactly when its producer is known |
| `Ledger.ArrivalKeeps` | src/hs_uploader/core.py:530-601 | rows that arrive, whatever they are, leave what is owed and what was delivered as they were |
| `Ledger.BatchCarries` | src/hs_uploader/sources/sqlite.py:584-630 | a batch read from the sink is a batch of what was ever inserted, though committed rows are gone from it |
| `Ledger.AdvanceKeeps` | src/hs_uploader/core.py:689-706 | the record moves to the end of an acked batch: every row it passed was delivered, in order, once |
| `Ledger.Committed` | src/hs_uploader/sources/sqlite.py:442-487 | exactly the rows of the source's scope at or below the token leave the sink, selected or not |
| `Ledger.CommitKeeps` | src/hs_uploader/sources/sqlite.py:442-487 | a commit up to the record deletes nothing the record has not passed |
| `Ledger.PartialCommitKeepsIff` | src/hs_uploader/core.py:632-639 | a commit past the record (partial ack) keeps every owed row exactly when there is none in between |
| `Ledger.PartialAckLosesARow` | src/hs_uploader/core.py:632-639 | two rows, a partial ack of the first: the second leaves the sink unsent |
| `Ledger.CommitDeletesUnsentIff` | src/hs_uploader/sources/sqlite.py:470-478 | a deleted row was never delivered exactly when the source does not select it or it is unreadable |
| `Ledger.UnselectedRowGoesUnsent` | src/hs_uploader/sources/sqlite.py:470-478 | a row in scope that the source does not select goes with the commit of the next one |
| `Ledger.OldSchemaIsInScope` | src/hs_uploader/sources/sqlite.py:470-478 | one such row: a row of an older schema |
| `Ledger.WedgedIff` | src/hs_uploader/core.py:571-572 | behind a batch with no readable payload, a row to ship never gets its turn, whatever arrives, exactly when the limit is not negative and the batch is as long as it, and already with that row alone behind it |
| `Ledger.UnreadableRowWedges` | src/hs_uploader/sources/sqlite.py:604-613 | one unreadable row, a limit of one, a good row behind it, and anything after |
| `Ledger.JumpCoversIff` | src/hs_uploader/sources/sqlite.py:842-872 | a record that moves without a batch passes over no unsent row exactly when no readable selected row lies past the last one taken (or the record) up to the new place |
| `WatermarkStore.Store.StartCursor` | src/hs_uploader/watermark/sqlite.py:311-334 | writes only where no row is; an existing row stays as it was |
| `WatermarkStore.Store.AdvanceCursor` | src/hs_uploader/watermark/sqlite.py:336-433 | the row and the verdict are those of the order on cursors; no other key changes |
| `WatermarkStore.Store.Enqueue` | src/hs_uploader/watermark/sqlite.py:567-611 | one retry is added whole at the end of its pipeline's queue, unless one to the same cursor is queued already |
| `WatermarkStore.Store.FindDue` | src/hs_uploader/watermark/sqlite.py:613-634 | the due retry of this pipeline with the earliest next attempt, or none is due |
| `WatermarkStore.Store.PopDue` | src/hs_uploader/watermark/sqlite.py:613-644 | that retry, and no other, leaves the table and its pipeline's queue |
| `WatermarkStore.Store.Requeue` | src/hs_uploader/watermark/sqlite.py:646-675 | it returns whole, under its own id |
| `WatermarkStore.Store.DeliverableCount` | src/hs_uploader/watermark/sqlite.py:711-722 | counts exactly this pipeline's retries |
| `WatermarkStore.Store.SendToDeadLetter` | src/hs_uploader/watermark/sqlite.py:677-690 | one dead letter more, nothing else |
| `Protocol.Promises` | src/hs_uploader/core.py:461-601 | what the invariant of a run gives: nothing lost, exactly once while nothing went wrong, one retry at most that carries exactly the rows after the record, and no retry replayed past the limit |
| `Protocol.PromisesAround` | src/hs_uploader/core.py:461-601 | the same by what the surroundings may do: without partial acks, and with a record from the start, a start at the beginning, or no crash, at least once; without crashes as well, exactly once |
| `Protocol.QuietRunHasNoFault` | src/hs_uploader/core.py:461-601 | with neither crash nor partial ack nothing goes wrong at all |
| `Protocol.InitialHolds` | src/hs_uploader/core.py:190-235 | a pipeline starts in a state that satisfies it |
| `Protocol.ArriveKeeps` | src/hs_uploader/core.py:530-601 | arrivals keep it |
| `Protocol.CrashKeeps` | src/hs_uploader/core.py:492-687 | so does the death of the process, with a retry claimed or a batch acked but not recorded |
| `Protocol.AckMoves` | src/hs_uploader/core.py:620-631 | the ack of the batch in hand moves the record to its end and no further |
| `Protocol.PartialTaken` | src/hs_uploader/core.py:632-639 | a partial ack takes the batch's rows up to the accepted point |
| `Protocol.PartialMoves` | src/hs_uploader/core.py:632-639 | and moves the record there |
| `Protocol.DeleteKeeps` | src/hs_uploader/core.py:620-631 | deleting what the record passed keeps every owed row |
| `Protocol.CutDeleteKeeps` | src/hs_uploader/core.py:632-639 | deleting the whole token of a partial ack keeps every owed row exactly when no row lies between |
| `Protocol.EnqueueKeeps` | src/hs_uploader/core.py:649-670 | a batch to be retried is queued once, with its rows, its cursor and its token |
| `Protocol.CountOneMore` | src/hs_uploader/core.py:492-528 | a replay counts once, below the limit |
| `Protocol.RequeueKeeps` | src/hs_uploader/core.py:811-834 | a retry goes back with every field but its attempts and next attempt unchanged |
| `Protocol.AnchorKeeps` | src/hs_uploader/sources/sqlite.py:842-872 | a first read without a record fixes where the pipeline starts |
| `Protocol.ReanchorKeepsIff` | src/hs_uploader/sources/sqlite.py:842-872 | fixing it again after a restart keeps every row passed delivered exactly when no readable selected row lies past the last one a destination took (or the record) up to the new start: nothing arrived meanwhile, or nothing behind a batch acked but not recorded |
| `Protocol.RestartLosesARow` | src/hs_uploader/sources/sqlite.py:842-872 | an empty sink, one row that arrives, a restart before it is read: the row is passed and never sent |
| `Protocol.StartRecordKeeps` | src/hs_uploader/daemon.py:643-691 | a starting record, written only over nothing, does not change where the pipeline starts |
| `Delivery.SqliteSource.Arrive` | src/hs_uploader/sink/writer.py:699-745 | rows get ids above every id ever given out |
| `Delivery.SqliteSource.PresentPosition` | src/hs_uploader/sources/sqlite.py:859-872 | the id of a row in scope, or 0, and no selected row lies past it |
| `Delivery.SqliteSource.CursorFromStartAt` | src/hs_uploader/sources/sqlite.py:842-857 | fixed at its first evaluation, at a row in scope then present or 0, past every selected row |
| `Delivery.SqliteSource.IterBatches` | src/hs_uploader/sources/sqlite.py:409-440 | reads from the record, or from the fixed start; the batch is the readable selected rows of a span no longer than the limit, and there is none exactly when nothing is selected past it |
| `Delivery.SqliteSource.Commit` | src/hs_uploader/sources/sqlite.py:442-487 | deletes exactly what is committed, only when the source deletes and the token reads |
| `Delivery.Pipeline.constructor` | src/hs_uploader/core.py:190-235 | a pipeline with no retry queued starts in the invariant, its books empty |
| `Delivery.Pipeline.Interlude` | src/hs_uploader/core.py:461-601 | between two transactions rows arrive and the process may die; the batch in hand stays deliverable |
| `Delivery.Pipeline.AckBatch` | src/hs_uploader/core.py:620-631 | record, then delete, with a crash allowed after each: the record ends at the batch's cursor, and nothing but a crash is flagged |
| `Delivery.Pipeline.PartialAckBatch` | src/hs_uploader/core.py:632-639 | the same for a partial ack: the record moves to the accepted point, and only a cut or a crash is flagged |
| `Delivery.Pipeline.DeleteWholeToken` | src/hs_uploader/core.py:632-639 | the whole token is deleted, and a cut is flagged exactly when rows to ship that the record has not passed go with it |
| `Delivery.Pipeline.EnqueueBatch` | src/hs_uploader/core.py:649-670 | exactly one retry is queued |
| `Delivery.Pipeline.HandleFirstAttempt` | src/hs_uploader/core.py:603-687 | every outcome of a first attempt keeps the invariant; exactly one retry is queued on retry-later and none otherwise; exactly a permanent failure leaves a dead letter, with the batch's rows |
| `Delivery.Pipeline.PopRetry` | src/hs_uploader/core.py:504-510 | the queue is empty while its one retry is out |
| `Delivery.Pipeline.Replay` | src/hs_uploader/core.py:511-513 | a replay is counted once and logs what the destination took |
| `Delivery.Pipeline.HandleOutcome` | src/hs_uploader/core.py:752-875 | a retry is settled, requeued with one attempt more and its delay, or dead-lettered with its own rows: at the limit, or at once on a permanent failure, and on nothing else |
| `Delivery.Pipeline.DrainDeliverables` | src/hs_uploader/core.py:492-528 | due retries until the gate holds, the process dies, one fails or none is due, and which it was; no more than the one queued retry is taken; it terminates |
| `Delivery.Pipeline.ReadSource` | src/hs_uploader/core.py:559-572 | what is read is exactly what the record is to pass next |
| `Delivery.Pipeline.Ship` | src/hs_uploader/core.py:573-580 | what the destination took is logged before anything else happens |
| `Delivery.Pipeline.DrainSource` | src/hs_uploader/core.py:530-601 | called only with no retry queued; it terminates, and ships fewer than budget plus limit records, or one batch without a budget |
| `Delivery.Pipeline.PumpOne` | src/hs_uploader/core.py:461-480 | a held pump changes nothing; one that leaves a retry queued takes nothing but that retry's own rows; only one whose queue is empty reads the source |
| `Delivery.Pipeline.WriteStartingRecord` | src/hs_uploader/daemon.py:643-691 | a starting record keeps the invariant, whatever arrives or dies around it |
| `Delivery.Pipeline.Run` | src/hs_uploader/core.py:461-875 | any run of pumps, arrivals, crashes, restarts and starting records, of any length: nothing is lost while no fault was flagged that loses, exactly once while none was flagged, at most one retry, none replayed past the limit; a run without crashes and partial acks flags none, so it delivers exactly once, and one without partial acks delivers at least once from a record, from the beginning, or without a crash |
| `Migration.MigratingStore.SplitPskreporter` | src/hs_uploader/watermark/schema.py:269-316 | both producer keys of every old record are filled, each pair named |
| `Migration.MigratingStore.CopyTo` | src/hs_uploader/watermark/schema.py:290-314 | a key that holds a record keeps it |
| `Migration.MigratingStore.FillMissingProducerKeys` | src/hs_uploader/watermark/schema.py:334-375 | exactly the missing keys are filled and named |
| `Migration.MigratingStore.PlanRetries` | src/hs_uploader/watermark/schema.py:470-508 | each retry's action, reading only |
| `Migration.MigratingStore.ApplyRetries` | src/hs_uploader/watermark/schema.py:537-548 | each retry deleted, moved or left as planned, the others untouched and in order |
| `Migration.MigratingStore.Migrate` | src/hs_uploader/watermark/schema.py:634-713 | the whole migration, written only when something would be |
| `Migration.FillAddsExactlyTheMissing` | src/hs_uploader/watermark/schema.py:334-375 | key by key: every record stays, each missing producer key of an old record gets that record whole, nothing else appears |
| `Migration.NothingMissing` | src/hs_uploader/watermark/schema.py:334-375 | afterwards none is missing |
| `Migration.PreviewExactIff` | src/hs_uploader/watermark/schema.py:599-631 | what the dry run says of a retry is what migrating does to it, exactly when it is not exposed |
| `Migration.CheckIsExact` | src/hs_uploader/watermark/schema.py:599-631 | `would_write` is true exactly when migrating changes the store or a retry is exposed |
| `Migration.ExposedRetryExists` | src/hs_uploader/watermark/schema.py:404-436 | one retry the dry run would delete and no migration touches |
| `Migration.MigrateIsIdempotent` | src/hs_uploader/watermark/schema.py:634-713 | migrating twice is migrating once |
| `Migration.CheckAfterMigrate` | src/hs_uploader/watermark/schema.py:599-631 | after a migration the dry run asks for something exactly when an exposed retry is left |
| `Migration.RecordsAreKept` | src/hs_uploader/watermark/schema.py:269-375 | no send record is changed or dropped |
| `Migration.NoRetryIsLost` | src/hs_uploader/watermark/schema.py:470-548 | each retry stays in its place among the others, moves with its cursor and token, or is deleted, and then both producer keys hold a record from which the sink still has every row past the old record |
| `Rebuild.Pool.Take` | src/hs_uploader/daemon.py:285-296 | the slot of this origin, index and entry, once; none when there is none |
| `Rebuild.Pool.GiveBack` | src/hs_uploader/daemon.py:298-299 | slots of a failed attempt return |
| `Rebuild.BuildFile` | src/hs_uploader/daemon.py:377-408 | a file is built whole from reused and new slots, or everything it took and made is undone |
| `Rebuild.BuildLegacy` | src/hs_uploader/daemon.py:326-374 | a legacy entry that fails is skipped; nothing already made is lost track of |
| `Rebuild.Admit` | src/hs_uploader/daemon.py:463-476 | a file is admitted exactly when no pipeline of it shares a name or a key with one that stands or with another of its own |
| `Rebuild.TryFile` | src/hs_uploader/daemon.py:532-549 | one attempt at one file leaves it standing whole, or the pool and the tables as they were |
| `Rebuild.TakeTurn` | src/hs_uploader/daemon.py:530-569 | present entries, else what the file last built, else nothing; an unchanged file keeps its pipelines |
| `Rebuild.TurnOrder` | src/hs_uploader/daemon.py:521-525 | every file once, unchanged ones first |
| `Rebuild.LegacyTables` | src/hs_uploader/daemon.py:504-512 | each legacy name and key stands for the first pipeline that has it, and nothing else stands |
| `Rebuild.Gather` | src/hs_uploader/daemon.py:571-572 | the build is exactly what was accepted |
| `Rebuild.UniquePlaces` | src/hs_uploader/daemon.py:285-299 | no slot is used twice: no two places of the pipeline list hold one pipeline |
| `Rebuild.LastGoodReusable` | src/hs_uploader/daemon.py:550-569 | what a file last built can be built again without building anything |
| `Rebuild.ReusedAdmitted` | src/hs_uploader/daemon.py:463-476 | while everything stands on reused slots, a reused file cannot collide |
| `Rebuild.AllReused` | src/hs_uploader/daemon.py:285-299 | a file built from the pool alone has exactly the pipelines it had |
| `Rebuild.StandingIsWhole` | src/hs_uploader/daemon.py:479-585 | what stands is whole: unique, without clashes, each file's slots those of its accepted entries |
| `Rebuild.Assemble` | src/hs_uploader/daemon.py:479-585 | the build is whole, holds no closed object, settles every file, keeps every unchanged file's very pipelines while the legacy entries are the same, and accounts for everything it made |
| `Running.Uploader.CloseObjects` | src/hs_uploader/core.py:360-366 | a removed pipeline's objects that no kept one holds and none closed yet |
| `Running.Uploader.CloseRemoved` | src/hs_uploader/core.py:346-374 | all of them, each once; the executors of the kept |
| `Running.Uploader.AssignExecutors` | src/hs_uploader/core.py:375-377 | a kept pipeline its old executor, a new one an executor of its own |
| `Running.Uploader.ReplacePipelines` | src/hs_uploader/core.py:332-379 | closes each object only removed pipelines hold, exactly once, whatever is aliased, and keeps one executor per pipeline |
| `Running.TouchingStays` | src/hs_uploader/daemon.py:479-585 | a pipeline that shares an object with the new build is in it |
| `Running.OpenAfterFailure` | src/hs_uploader/daemon.py:840-881 | a failed rebuild closes nothing of the build that stays |
| `Running.OpenAfterDrop` | src/hs_uploader/daemon.py:840-881 | closing what was dropped closes nothing of the new build |
| `Running.OpenAfterSwap` | src/hs_uploader/daemon.py:840-881 | the swap closes something of the new build exactly when it stopped a running pipeline that the build still holds |
| `Running.FallingVersionClosesTheBuild` | src/hs_uploader/daemon.py:840-881 | one producer pipeline, and a store whose version falls below the one producers need |
| `Running.Rebuilder.Rebuild` | src/hs_uploader/daemon.py:840-881 | any sequence of rebuilds: the running set is the runnable part of a whole build, nothing in it is closed unless a pipeline was stopped, and one that fails, whether or not the set changed, changes nothing |
| `Ipfix.RecordRoundTrip` | src/hs_uploader/payload/psk_pskr.py:123-144 | values of any record read back by section 7 of RFC 7011, with what follows them |
| `Ipfix.TemplateRoundTrip` | src/hs_uploader/payload/psk_pskr.py:68-92 | a template set with its padding reads back as its fields by section 3.4 of RFC 7011 |
| `Ipfix.DataRoundTrip` | src/hs_uploader/payload/psk_pskr.py:147-177 | rows read back in order by section 3.3 of RFC 7011, unambiguously while the padding is shorter than any record |
| `Ipfix.ReadingCosts` | src/hs_uploader/payload/psk_pskr.py:230-244 | a record that reads takes at least the octets its values cost, three for the length of a long one |
| `PskCodec.ReceiverHeaderIsTemplate` | src/hs_uploader/payload/psk_pskr.py:68-78 | the fixed receiver header is the options template of the four receiver fields |
| `PskCodec.SenderHeaderIsTemplate` | src/hs_uploader/payload/psk_pskr.py:80-92 | the fixed sender header is the template of the eight spot fields |
| `PskCodec.SpotReadsBackIff` | src/hs_uploader/payload/psk_pskr.py:123-133 | an encoded spot reads back exactly when each of its text fields is below 255 octets |
| `PskCodec.FullFieldIsMisread` | src/hs_uploader/payload/psk_pskr.py:123-133 | a callsign of 255 octets is not read back |
| `PskCodec.SpotOfValues` | src/hs_uploader/payload/psk_pskr.py:123-133 | the values that read back are the spot, its SNR clamped |
| `PskCodec.PacketReadsBack` | src/hs_uploader/payload/psk_pskr.py:147-177 | a packet reads as one message with its timestamp, sequence and session, the receiver, and every spot in order |
| `PskCodec.ChunkSpots` | src/hs_uploader/payload/psk_pskr.py:180-216 | chunks that are not empty, concatenate to the input and are greedy; none exactly when the cap leaves no budget; at a cap that is a multiple of 4 every packet is within it exactly when every spot is within the budget |
| `PskCodec.OverheadBounds` | src/hs_uploader/payload/psk_pskr.py:204-209 | the overhead is a multiple of 4, above 0 and at most 1,160 |
| `PskCodec.PacketWithinCapIff` | src/hs_uploader/payload/psk_pskr.py:180-216 | for any cap, a packet stays within it exactly when its spots' octets stay within the budget rounded down to a multiple of 4 |
| `PskCodec.PacketsWithinCapIff` | src/hs_uploader/payload/psk_pskr.py:180-216 | at a cap that is a multiple of 4, all packets of greedy chunks stay within it exactly when no spot alone is over the budget |
| `PskCodec.OddCapIsExceeded` | src/hs_uploader/payload/psk_pskr.py:180-192 | a spot of 15 octets alone in its packet at a cap of 15 past the overhead: the packet is one octet over |
| `PskCodec.PacketWithinRoundedCapIff` | src/hs_uploader/payload/psk_pskr.py:180-216 | a packet stays within the cap rounded up to a multiple of 4 exactly when its spots stay within the budget rounded up |
| `PskCodec.GreedyWithinCap` | src/hs_uploader/payload/psk_pskr.py:180-216 | so a greedy chunk exceeds the cap rounded up only as a lone spot over the budget |
| `PskCodec.TcpPacketsFit` | src/hs_uploader/payload/psk_pskr.py:147-216 | at the TCP cap every packet of encoded spots builds, is at most the cap, and both length fields are exact |
| `PskTransport.SerializeForRetry` | src/hs_uploader/transports/pskreporter.py:153-177 | the blob, or none exactly when a length does not fit its field |
| `PskTransport.DecodeRetryBlob` | src/hs_uploader/transports/pskreporter.py:179-204 | the receiver and the spots at the offsets the blob names |
| `PskTransport.DecodeReceiverBlob` | src/hs_uploader/transports/pskreporter.py:336-351 | the four receiver fields |
| `PskTransport.RetryRoundTrip` | src/hs_uploader/transports/pskreporter.py:153-204 | a replay sees exactly the receiver and the encoded spots that were queued |
| `PskTransport.Transport.SendOnePacket` | src/hs_uploader/transports/pskreporter.py:277-300 | a packet is delivered once or not at all; its sequence number is the spots sent before on its connection |
| `PskTransport.Transport.SendEncodedChunks` | src/hs_uploader/transports/pskreporter.py:261-275 | every spot once and in order among the packets sent, or a first part of them |
| `PskTransport.Transport.ConnectIfNeeded` | src/hs_uploader/transports/pskreporter.py:302-313 | an open connection stays as it is, and a failure opens none; a new one has a number of its own, a session of four octets, and counts from 0, with nothing sent on it |
| `Toml.WithinTwice` | src/hs_uploader/sinkswitch.py:210-232 | two runs of steps in one table are one run: what makes dotted headers add up |
| `SwitchTree.StatementsMakeTheTree` | src/hs_uploader/sinkswitch.py:210-243 | the statements printed for a tree make that tree by the table rules of TOML, nested arrays of tables included |
| `SwitchText.QuoteString` | src/hs_uploader/sinkswitch.py:178-187 | a quoted string, each character escaped as `_str` does |
| `SwitchText.StringReads` | src/hs_uploader/sinkswitch.py:178-187 | a quoted string reads back, whatever its characters |
| `SwitchText.KeyReads` | src/hs_uploader/sinkswitch.py:172-175 | a printed key reads back, unless it ends in a newline |
| `SwitchText.PathReads` | src/hs_uploader/sinkswitch.py:219-231 | a dotted header reads back |
| `SwitchText.ValueReads` | src/hs_uploader/sinkswitch.py:190-203 | strings, booleans, integers and empty arrays read back |
| `SwitchText.LineReadsIff` | src/hs_uploader/sinkswitch.py:210-232 | a printed line reads as its statement exactly when its keys are good, and otherwise is no TOML |
| `SwitchText.LinesReadIff` | src/hs_uploader/sinkswitch.py:210-243 | so does a whole text |
| `SwitchFile.Emit` | src/hs_uploader/sinkswitch.py:210-232 | every line of one table in order; it fails exactly on a value it cannot print |
| `SwitchFile.DumpsToml` | src/hs_uploader/sinkswitch.py:235-243 | prints exactly the trees it can, and what it prints reads as the tree |
| `SwitchFile.PrintsBackIff` | src/hs_uploader/sinkswitch.py:172-243 | for every tree it prints, the text reads as that tree exactly when no key ends in a newline, and otherwise as nothing |
| `SwitchFile.NewlineKeyIsNotRead` | src/hs_uploader/sinkswitch.py:168-175 | a tree whose one key ends in a newline prints a text that is no TOML |
| `SwitchState.TomlProblem` | src/hs_uploader/cli.py:273-302 | the command line accepts exactly the JSON trees the printer does not raise on |
| `SwitchState.EffectiveIsTheMeet` | src/hs_uploader/sinkswitch.py:141-163 | the effective state is the loosest that neither file forbids, off whenever either fails to read |
| `SwitchState.UpdateData` | src/hs_uploader/sinkswitch.py:388-411 | the fields written, the grant merged, one history entry appended, every other key left alone; it fails exactly on a history or a grant of another kind |
| `SwitchState.WrittenReadsIff` | src/hs_uploader/sinkswitch.py:96-113 | a written file reads as the state that was set exactly when no key ends in a newline, and otherwise as broken |
| `SwitchState.ChangedFitsIff` | src/hs_uploader/sinkswitch.py:394-418 | what a change leaves prints exactly when the entries it keeps, the items of the old history, the merged grant and the given identity do |
| `SwitchState.WriteSwitch` | src/hs_uploader/sinkswitch.py:352-422 | it writes exactly when the present file parses, its history is a list of printable tables, its grant a table where one is given, and every entry kept or given prints; then the file holds the change and nothing else, and reads back as the state set (unless a key ends in a newline) |
| `Gate.StepKeeps` | src/hs_uploader/gate.py:118-355 | no lock section of any thread, whatever sections of others come between, breaks the tables, the clocks or the balance, while threads decide for pipelines of their own |
| `Gate.RunKeeps` | src/hs_uploader/gate.py:118-355 | so they hold in every state any run of any number of threads reaches |
| `Gate.InvariantMeans` | src/hs_uploader/gate.py:88-113 | exception keys are listed or cleared, never both, inside the clocks, inside what was said, within the cap; two ERROR lines of one exception are six hours apart; recovery lines never outnumber ERROR lines |
| `Gate.LinesApart` | src/hs_uploader/gate.py:201-213 | any two ERROR lines of one exception key, not just neighbours |
| `Gate.ForgetKeeps` | src/hs_uploader/gate.py:215-234 | forgetting drops whole pipelines and leaves the others' entries alone |
| `Gate.SharedKeyBreaksTheTables` | src/hs_uploader/gate.py:392-393 | for any two threads that share a pipeline key there is a run from the empty gate whose end both lists and clears one exception key |
| `Gate.TablesStandIff` | src/hs_uploader/gate.py:118-355 | every run keeps the invariant exactly when no two threads share a pipeline key |
| `Gating.SinkGate.First` | src/hs_uploader/gate.py:342-355 | true once for a key, while there is room |
| `Gating.SinkGate.Clear` | src/hs_uploader/gate.py:336-340 | a fault that clears forgets its clock and that it was said |
| `Gating.SinkGate.Fault` | src/hs_uploader/gate.py:315-334 | the three sections leave exactly the state `JudgedMeans` speaks of, and a first sight another module logs stays silent |
| `Gating.JudgedMeans` | src/hs_uploader/gate.py:315-334 | a fault speaks exactly when it is new and there is room, or six hours after it last spoke; no other key changes |
| `Gating.SinkGate.StartOver` | src/hs_uploader/gate.py:201-213 | a cleared exception that recurs is silent within six hours of its last line and a first sight after that; it is cleared no more |
| `Gating.OutbreakMeans` | src/hs_uploader/gate.py:122-138 | an exception's ERROR line comes exactly when six hours have passed since its last one, whether or not it was cleared meanwhile |
| `Gating.SinkGate.FileFaults` | src/hs_uploader/gate.py:279-313 | each file fault reminds exactly when six hours have passed since it last spoke; a missing switch directory also speaks at first sight while there is room; no pipeline's exceptions are touched |
| `Gating.SinkGate.Rules` | src/hs_uploader/gate.py:238-262 | an exception of any call the rules make comes back as such, and no exception key, ERROR line or recovery line is touched on the way |
| `Gating.SinkGate.Transition` | src/hs_uploader/gate.py:143-175 | a line exactly when a tracked pipeline's last real decision changes what the log told; never more pipelines than the cap |
| `Gating.SinkGate.Decide` | src/hs_uploader/gate.py:118-141 | fails closed: it sends only when the rules ran and said so; the ERROR, recovery and transition lines it logs |
| `Gating.SinkGate.Forget` | src/hs_uploader/gate.py:215-234 | the state of every pipeline not kept, and of no other, goes |
| `WsprCycles.CurrentFloor` | src/hs_uploader/sources/wspr_completion.py:67-74 | a multiple of 120 seconds, not after now and less than a cycle before it |
| `WsprCycles.WsprCycleSource.WarnOnce` | src/hs_uploader/sources/wspr_completion.py:184-200 | true exactly for a cycle not among the last 256 warned of |
| `WsprCycles.WsprCycleSource.ShippableCeiling` | src/hs_uploader/sources/wspr_completion.py:102-181 | the end of the longest run of present cycles that may ship, before the one in progress, with rows arriving between its queries |
| `WsprCycles.CeilingIsUnique` | src/hs_uploader/sources/wspr_completion.py:102-181 | with no row arriving meanwhile there is one such answer |
| `WsprCycles.NeverStalls` | src/hs_uploader/sources/wspr_completion.py:153-180 | once every present cycle up to one ended longer ago than the backstop, the ceiling reaches it: no dead receiver stalls the queue |
| `WsprCycles.NotInProgress` | src/hs_uploader/sources/wspr_completion.py:67-74 | a cycle below the floor has ended |
| `WsprCycles.WsprCycleSource.EffectiveCursor` | src/hs_uploader/sources/wspr_cycle.py:265-288 | the record, or the anchor fixed once, one cycle before the first poll |
| `WsprCycles.WsprCycleSource.List` | src/hs_uploader/sources/wspr_cycle.py:172-224 | every cycle past the cursor with a row for this server, up to the ceiling, oldest first |
| `WsprCycles.WsprCycleSource.BuildBatch` | src/hs_uploader/sources/wspr_cycle.py:350-410 | every row of the cycle for this server that reads, in queue order; none when there is none |
| `WsprCycles.CyclePipeline.Poll` | src/hs_uploader/sources/wspr_cycle.py:172-228 | whatever arrives and whatever fails: each delivered cycle was complete, too old to wait for, or absent when the walk began, and no cycle that had something to send when the cycles were listed was jumped; a poll that ends leaves nothing behind that could go |
| `WsprCycles.CyclesIncrease` | src/hs_uploader/sources/wspr_cycle.py:172-228 | delivered cycles strictly increase, so none goes out twice |
| `WindowDedup.HasWinner` | src/hs_uploader/sources/sqlite.py:739-757 | every partition has a row that ranks first |
| `WindowDedup.OneWinner` | src/hs_uploader/sources/sqlite.py:739-757 | and at most one row does |
| `WindowDedup.QueryOffers` | src/hs_uploader/sources/sqlite.py:754-776 | the query ships only best rows of partitions wholly past the cursor, in id order, and all of them exactly when the LIMIT does not cut |
| `WindowDedup.UncutCovers` | src/hs_uploader/sources/sqlite.py:754-776 | when the LIMIT cuts nothing off, every such partition is shipped by its best row |
| `WindowDedup.NeverOfferedAgain` | src/hs_uploader/sources/sqlite.py:722-738 | a partition with a row at or below the cursor is never offered again, whatever arrives |
| `WindowDedup.PassedOverIff` | src/hs_uploader/sources/sqlite.py:754-772 | a partition the LIMIT cut off is lost for good exactly when it has a row at or below the batch's last id |
| `WindowDedup.LimitLosesAPartition` | src/hs_uploader/sources/sqlite.py:754-772 | one that is: {3, 10} won by 10, and {5}, one row a batch |
| `WindowDedup.DeletingOffersAgainIff` | src/hs_uploader/sources/sqlite.py:442-487 | a source that deletes what it shipped offers a partition again exactly when it has a row past the cursor |
| `WindowDedup.DeletingShipsTwice` | src/hs_uploader/sources/sqlite.py:442-487 | two rows of one partition, the better one shipped and deleted: the other ships too |
| `WindowDedup.WindowPipeline.Arrive` | src/hs_uploader/sources/sqlite.py:700-738 | appended rows keep the log sound |
| `WindowDedup.WindowPipeline.Pump` | src/hs_uploader/sources/sqlite.py:700-776 | over any run each partition is delivered at most once, by the best of its rows then present |
| `WsprnetDedup.Dedup` | src/hs_uploader/transports/wsprnet.py:448-521 | the loop and the sort give the kept records in input order |
| `WsprnetDedup.KeptIff` | src/hs_uploader/transports/wsprnet.py:473-512 | a record is kept exactly when it passes through or is the earliest of its key's greatest level; a NaN that leads its key stays, one that follows never counts |
| `WsprnetDedup.KeptIsGreatest` | src/hs_uploader/transports/wsprnet.py:507-512 | among readable levels that is the greatest, and the first that has it |
| `WsprnetDedup.OutputKeeps` | src/hs_uploader/transports/wsprnet.py:513-521 | the output is a subsequence in input order, each key once |
| `WsprnetDedup.EveryKeyIsKept` | src/hs_uploader/transports/wsprnet.py:473-512 | every key of the input has its record, and every pass-through stays |
| `WsprnetDedup.Idempotent` | src/hs_uploader/transports/wsprnet.py:126-131 | deduplicating again changes nothing |
| `WsprnetDedup.PlaceIsTheFirstsIff` | src/hs_uploader/transports/wsprnet.py:461-462 | a key has its first record's place, as documented, exactly when no later record of it is above the first |
| `WsprnetDedup.WinnerMovesBack` | src/hs_uploader/transports/wsprnet.py:461-462 | a key heard twice, better the second time, with another between: it comes last |
| `WsprnetDedup.HeardTwice` | src/hs_uploader/transports/wsprnet.py:461-462 | three such spots, in full |

## Left out

- The attempts log and its trimming: `record_attempt` is a point at which the process may die.
- Migration.MigratingStore.Migrate: the file checks, locks, journals and report lines around the transaction are not modelled, nor is migration 3's table.
- SwitchState.WriteSwitch: the atomic file replacement, the stat cache and the owner checks are not modelled; the present file's tree is an argument.
- WsprCycles.WsprCycleSource.BuildBatch: the psk.spots rows that ride along with a cycle and their switch check are not modelled.
- WsprCycles.CyclePipeline.Poll: rows are only appended; rows trimmed from the sink between two queries are not modelled.
- Gating.SinkGate.Decide: an exception raised while the recovery line is worked out is not modelled.
- Rebuild.Works.BuildOne: every source, transport and fallback built for an entry is newly made for it (`Rebuild.MayBuild`); a builder that shares an object between entries, which `_close_quietly` (src/hs_uploader/daemon.py:199-207) may then close under the other, is not modelled, so "holds no closed object" does not speak of it.
- WsprnetDedup.Dedup: frequencies are their quantum of 0.0001 MHz and levels their place in float order; conversion of text and rounding are not modelled, nor is a frequency that is NaN.
- PskCodec.PacketReadsBack: text is octets; the UTF-8 encoder, its error handling and the mapping of records to spots (`_record_to_spot`) are not modelled.
- SQL on payloads that are not JSON (SQLite raises inside `json_extract`): a row is readable or not, and its fields are given.
- Numbers inside payloads are integers; a window's rank column is any value the cast orders.
- `str.lower` and `str.strip` beyond what decides MSK144.
- The ship ceiling of SqliteSource (`ceiling_provider`), which the factory does not wire.
- Other consumers that delete this scope's rows, and `sink` trimming.
- FileTreeSource beyond its cursor order: files of one mtime that straddle a limit are skipped by design.
- TOML that the printer never writes: floats, dates, comments, literal and multi-line strings, inline tables. The reader refuses them.
- Threads inside one pump: one pipeline's pump is sequential; several pipelines share a store one transaction at a time.
- Sockets, sftp, HTTP, systemd, signals, the watchdog, the command line but for `_toml_problem`, status output and log wording.
- Tar building, multipart bodies, MEPT text and manifest field mapping.
