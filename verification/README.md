# usageDb in Dafny

usageDb is an append-only billing store. Clients send batches of usage events; the engine
deduplicates them, logs them, buffers them in a memtable, flushes them into immutable columnar
segments, rolls them up by the hour, compacts segments, and answers SUM queries either from raw events
or from rollups spliced onto a raw tail. This project models that engine and proves what it promises
over whole runs, with a crash possible between any two durable actions.

## How the model is organised

| file | content |
|---|---|
| `Model.dfy`, `Sums.dfy` | events, machine arithmetic, hours; sums over multisets and filters |
| `Dedupe.dfy`, `Memtable.dfy` | the dedupe cache and the memtable, as classes proved against functions on values |
| `WalText.dfy`, `Wal.dfy` | the log as text files cut anywhere by a crash, and the view of a file (parsed events and the state of its last line) that the engine's proofs use |
| `Manifests.dfy`, `Ingest.dfy`, `Sorting.dfy`, `Segments.dfy`, `Query.dfy`, `Rollup.dfy` | the catalogue, batch admission and triage, canonical order and dedupe, segment metadata, pruning and aggregation, the rollup builder |
| `Engine.dfy` | one state (`Up` or `Down`), fifteen kinds of step, runs |
| `Durability.dfy`, `Catalog.dfy`, `Runs.dfy`, `TornRun.dfy` | the log/memory coupling, the truth of the manifest, conservation over runs, and the run that loses an event |
| `RecoveryWindow.dfy`, `ExactlyOnce.dfy`, `RetryWindow.dfy`, `RestartRuns.dfy` | which events a restart registers, uniqueness over runs, how long the cache knows an id, and what a restart does to it |
| `RollupSafety.dfy`, `RollupRuns.dfy`, `Watermark.dfy`, `RebuildStart.dfy`, `RebuildRuns.dfy`, `QueryRefinement.dfy` | rollups as an exact cache, watermark protocol, watermark against clock and memtable, repair, rebuilds from any time with two runs that go wrong, rollup query = raw query |
| `DrillDown.dfy`, `RollupMetas.dfy` | what filters and groups mean on the events' own fields, and what is recorded about rollup segments |
| `Compaction.dfy`, `CompactionPass.dfy` | compaction, reader grace, and what a whole pass leaves listed |
| `Periods.dfy`, `PeriodRuns.dfy`, `RollupCount.dfy`, `CountRuns.dfy` | closed billing periods, their quantities and event counts, and three runs that report them wrongly |
| `ManifestLog.dfy` | manifest generations on disk, with a crash inside any save |
| `Codec.dfy`, `SegmentCodec.dfy`, `SegmentFile.dfy` | column encodings, framing, segment round trip |
| `Sql.dfy`, `SqlFaithful.dfy` | WHERE clause to plan, and exactly when the plan means the clause |
| `FlushFailure.dfy`, `FlushFailureRuns.dfy` | a flush whose segment write or manifest save fails, and three runs that lose an event by it |
| `Recovery.dfy`, `Flushing.dfy`, `Rolling.dfy`, `App.dfy` | the imperative code of startup, flush, tick, compaction, query and period handlers, each method proved to perform steps of the state machine |

Functions whose inside is not modelled are parameters with a stated property: blake3 (`Injective`),
JSON (`JsonRoundTrips`, `RoundTrips`, and for log lines `LineJsonOk`), bincode, zstd and the UTF-8 check (`LibraryOk`,
`IndexLibraryOk`), and month arithmetic (`CalendarOk`). Random segment ids are drawn from a counter of
unused ids. Each I/O action succeeds or the process dies, except that in the flusher the write of a
segment or the manifest save may fail. Time is an argument of every step and never
goes back. `i128` sums saturate; theorems about sums assume that the absolute quantities fit
(`Fits`). Flush messages are handled in seal order, and a rollup tick is one step.

## Where the code does not do what it promises

The code as it stands breaks the following promises. Each failure is shown, and each promise is proved
with the exact condition under which the code keeps it.

- Acknowledged events can be lost after a torn write. `Wal::open` reopens the highest file in append
  mode (`src/ingest/wal.rs:37-63`). If a crash left an unfinished line there, the next batch is glued to
  it and replay skips the line: the first acknowledged event of that batch is gone, and with it an event
  whose newline was missing. `AppendReplayedIffClean` gives the condition on the text (it is empty or
  ends with a newline, or nothing is appended), `IngestKeepsCouplingIffClean` the same for the engine,
  `AckAfterTornCrashIsLost` the losing family, and `AcknowledgedEventLost` a complete run from an empty
  database. Run theorems carry this condition as `Careful`.
- A failed bucket write loses events. The flusher removes the segments it wrote before the failure but
  puts back only the events from the failing bucket on (`src/ingest/flusher.rs:87-104`), and those go under
  the next seal, while the checkpoint moves past the log file that held them. `FailedFlushForgets`: memory
  keeps everything exactly when the first write failed. `FailedFlushSafeIff`: after the next commit the disk
  still accounts for everything exactly when the first write failed and no other message was queued.
  `EarlierBucketLost` and `QueuedMessageLost` are complete runs.
- A failed manifest save loses the message. The comment there promises that recovery replays it
  (`src/ingest/flusher.rs:119-136`), but the manifest in memory keeps the moved checkpoint and the removed
  segments, and the next save writes it. `FailedSaveLoses`: after the next commit the message is gone, whatever
  was queued. `UnsavedMessageLost` is a complete run.
- The net total of a closed period counts corrections that precede the close twice
  (`src/api/http_server.rs:734-765` and `949-984`), and drops corrections outside 64 bits (`as_i64`,
  lines 967-972). `ReportedTotalIsLiveIff`: the figure is right exactly when the two errors cancel (or it
  saturates at the greatest 128-bit number). `EarlyCorrectionCountsTwice` and `WideCorrectionIsDropped`
  are complete runs.
- The event count that closing a period freezes is not the number of its events: it is taken through the
  rollups, where COUNT counts rows (`src/api/http_server.rs:800-837`). `RollupCountIs` says what it is, the
  number of rollup keys below the watermark and of events from there on; `FrozenCountExactIff`: it is the number
  of events exactly when no two of them below the watermark share a rollup key. `TwoEventsCountAsOne` is a
  complete run.
- A WHERE clause can mean something else than its plan. Of two different single-valued `account_id`
  constraints the last one wins (`src/query/sql.rs:298-304`), equality and IN on a time column are taken as a
  dimension, and a bound on `hour_start_ms` is applied to the time itself (`src/query/sql.rs:325-336`).
  `FaithfulIff`, for every supported clause: plan and clause accept the same events exactly when the named
  accounts agree, no time column is compared to values, and the plan's bounds are those the clause means; or
  when plan and clause both contradict themselves, which is read off their bounds and value lists.
- TTL eviction assumes a time-ordered queue (`src/ingest/dedupe.rs:126-140`), which recovery does not
  produce. `EvictComplete`: eviction leaves no expired entry exactly when the expired ones come first;
  `ExpiredEntrySurvives` is a complete run that ends with an expired entry still cached.
- Recovery registers segments by the time of their events (`src/runtime/recovery.rs:102-114`), the TTL
  runs on the time of ingest. `ResendStoredTwice`: an event stamped before the window, flushed, and
  resent right after a restart is stored twice. `RecoveredKnowsAllIff`: the recovered cache knows every
  stored id exactly when every listed segment that holds anything reaches into the window, and
  `RecoveredKnowsIff` which ids it knows in general.
- A rebuild from a time inside an hour leaves the rollups wrong (`src/rollup/worker.rs:301-319`). The next
  tick works in hour-long windows counted from that time, so the hour it starts in keeps only its second part,
  an hour whose rollup segment was kept is rolled up again, and the last window reaches past
  the target, into what the following tick rolls up once more. `RebuildRestoresIff` and, over two ticks,
  `TwoTicksRestoreIff` say exactly when rollup = raw still comes out; `AlignedStartRestores`: always if the
  rebuild starts on the hour or does not rewind. `StartHourIsLost` and `LaterHourCountsTwice` are complete runs.
- Opening a segment file indexes past its end when a column entry is cut off right after its name
  (`src/storage/segment_reader.rs:105-107`). `IndexesPastEndIff` says exactly when; `CutFilePanics` is such a file.

## Model

| member | source | states |
|---|---|---|
| `Dedupe.AnyHistoryKeepsRep` | src/ingest/dedupe.rs:60-140 | after any sequence of operations the queue's hashes are duplicate-free and are the cache keys, with agreeing times |
| `Dedupe.CommitKeepsRep` | src/ingest/dedupe.rs:75-97 | a commit keeps queue and cache in agreement |
| `Dedupe.CommitBounded` | src/ingest/dedupe.rs:75-97 | an inserting commit leaves at most `max_capacity` entries |
| `Dedupe.EvictKeepsUnexpired` | src/ingest/dedupe.rs:131-140 | TTL eviction never drops an unexpired entry |
| `Dedupe.EvictComplete` | src/ingest/dedupe.rs:131-140 | eviction leaves no expired entry if and only if the expired entries stand at the front of the queue |
| `Dedupe.TrimKeepsSuffix` | src/ingest/dedupe.rs:90-97 | capacity trimming keeps exactly the newest entries of the queue |
| `Dedupe.TrimKeepsNewest` | src/ingest/dedupe.rs:90-97 | trimming ends within capacity, keeps queue and cache in agreement, alters no surviving entry, and keeps the entry just inserted unless the capacity is zero |
| `Dedupe.HotDedupe.EvictExpired` | src/ingest/dedupe.rs:131-140 | the loop computes the specified eviction and keeps the representation |
| `Dedupe.HotDedupe.CommitEvent` | src/ingest/dedupe.rs:75-97 | evict, insert unless known, trim; the new state is the specified one |
| `Dedupe.HotDedupe.CheckAndInsert` | src/ingest/dedupe.rs:102-108 | answers by the old cache and commits only new events |
| `Dedupe.HotDedupe.InsertKnownEvent` | src/ingest/dedupe.rs:112-124 | registers a known event; the first registration of a hash wins |
| `Dedupe.HotDedupe.ClassifyEvent` | src/ingest/dedupe.rs:60-70 | new, duplicate or conflict according to the cached payload |
| `Memtables.Memtable.Insert` | src/ingest/memtable.rs:24-32 | appends, keeps the size counter exact, remembers the time of the first insert |
| `Memtables.Memtable.MinEventTimestampMs` | src/ingest/memtable.rs:77-79 | the least timestamp buffered, or nothing when empty |
| `Memtables.Memtable.DrainAll` | src/ingest/memtable.rs:81-88 | hands over everything and resets size and age |
| `WalText.AppendReplayedIffClean` | src/ingest/wal.rs:68-78 | on any text a crash can leave, an append is replayed in full if and only if the text is empty or ends with a newline, or nothing was appended |
| `WalText.AppendToTornFileLoses` | src/ingest/wal.rs:140-177 | otherwise exactly the first appended event is lost, and with it the event of an unterminated last line |
| `WalText.TornAppendReplay` | src/ingest/wal.rs:68-78 | after a crash that keeps any number of the written characters, replay yields the old events and the lines that are complete up to their newline or lack only that |
| `WalText.AppendRefines` | src/ingest/wal.rs:68-78 | writing the lines of a batch changes the parsed view of a file exactly as the engine's append says |
| `WalText.CrashRefines` | src/ingest/wal.rs:68-88 | whatever number of written characters survives, the parsed view is one of the engine's torn appends |
| `WalText.TornIsCut` | src/ingest/wal.rs:68-88 | conversely, every torn append of the engine is what some number of surviving characters leaves |
| `WalText.ReplayFile` | src/ingest/wal.rs:140-177 | the line loop keeps exactly the lines that parse, the last one even without its newline |
| `Wals.ReplayListed` | src/runtime/recovery.rs:75-86 | replaying the listed files one by one is replaying the whole id range in order |
| `WalText.Wal.Open` | src/ingest/wal.rs:37-63 | selects the highest unsealed file, or the next id, for append |
| `WalText.Wal.AppendBatch` | src/ingest/wal.rs:68-88 | writes one line per event at the end of the active file and nothing elsewhere |
| `WalText.Wal.Rotate` | src/ingest/wal.rs:98-116 | seals the active id and starts an empty file under the next one |
| `WalText.Wal.DeleteFilesThrough` | src/ingest/wal.rs:181-197 | removes exactly the files up to the id, whichever it is |
| `Wals.DeleteFilesOf` | src/ingest/wal.rs:181-197 | the directory walk removes exactly the files up to the id |
| `Wals.ListFilesAfter` | src/ingest/wal.rs:119-137 | lists exactly the unsealed files, ascending |
| `Ingest.AdmitSound` | src/api/http_server.rs:158-187 | everything admitted is admissible and stamped with the ingest time |
| `Ingest.AdmitIs` | src/api/http_server.rs:101-187 | admission keeps, in order and stamped, exactly the events with nonempty ids, account, product and meter, a positive time, at most 16 dimensions and a reference if they correct or retract, except usage in a month that the same account has closed |
| `Ingest.TriageSound` | src/api/http_server.rs:218-240 | every admitted event is counted once; the new ones are pairwise distinct and not in the cache |
| `Ingest.CountsAddUp` | src/api/http_server.rs:158-266 | accepted + duplicates + conflicts + rejected is the batch size |
| `Ingest.BatchRefinesFold` | src/api/http_server.rs:218-266 | without eviction, three-phase batch ingest equals folding `check_and_insert` one event at a time: same accepted events in order, same counts, same cache and queue |
| `Ingest.CommitAllInserts` | src/api/http_server.rs:263-266 | without eviction, committing new events adds exactly their entries |
| `Ingest.AdmitBatch` | src/api/http_server.rs:158-187 | the admission loop computes the admitted events and counts the rest |
| `Ingest.TriageEvents` | src/api/http_server.rs:218-240 | the classification loop with its in-batch map computes the triage |
| `Sorting.SortIsPermutation` | src/ingest/flusher.rs:224-236 | the canonical sort is a permutation |
| `Sorting.SortIsSorted` | src/ingest/flusher.rs:224-236 | in the sorted output accounts never descend, within an account products, then meters, then models (none as empty), then times |
| `Sorting.StrLeIff` | src/ingest/flusher.rs:224-236 | strings compare as in a dictionary: a prefix comes first, otherwise the first difference decides |
| `Sorting.KeyLeIff` | src/ingest/flusher.rs:224-236 | comparing sort keys is comparing the events' own five fields in that order |
| `Sorting.SortIsStable` | src/ingest/flusher.rs:224-236 | the canonical sort is stable |
| `Sorting.SortedStableUnique` | src/ingest/flusher.rs:224-236 | a sorted, stable rearrangement is unique, so the order is fully determined |
| `Sorting.KeepFirstIsFirst` | src/compact/worker.rs:307-309 | the kept event of each id is the first in sort order |
| `Sorting.SortAndDedupeSound` | src/compact/worker.rs:295-310 | the output is in that order on the events' fields, holds exactly one event per distinct id, and doing it again changes nothing |
| `Sorting.KeptIsLeast` | src/compact/worker.rs:295-310 | of the input events of one id, the kept one may stand before every other |
| `Sorting.SortAndDedupePreserves` | src/compact/worker.rs:295-310 | with unique ids nothing is dropped |
| `Sorting.SortAndDedupeEvents` | src/compact/worker.rs:295-310 | the retain loop with its seen-set computes that output |
| `Segments.TimesBound` | src/ingest/flusher.rs:240-293 | the recorded time range covers every event |
| `Segments.AccountsBound` | src/ingest/flusher.rs:240-293 | the recorded account range covers every event |
| `Segments.MetaIsTight` | src/ingest/flusher.rs:240-293 | and the ranges are no wider: their ends are times and accounts of events in the segment |
| `Segments.IdSetsAre` | src/ingest/flusher.rs:240-293 | the id sets hold exactly the products, meters and models that occur |
| `Query.SegmentSumExact` | src/ingest/flusher.rs:240-293 | the recorded sum is that of the events, while it fits |
| `Model.BucketIsResidue` | src/model/ids.rs:31-39 | an account's bucket is the remainder of its hash by the bucket count, and 0 without buckets |
| `Segments.BuildSegmentMeta` | src/ingest/flusher.rs:240-293 | the folding loop computes range, id sets, accounts and saturating sum |
| `Query.PruningSound` | src/query/executor.rs:106-165 | a segment described by its metadata and bucket is never skipped when it holds a matching event |
| `Query.SkippedIff` | src/query/executor.rs:106-165 | a segment is skipped exactly when its times miss the range, its bucket or accounts miss the plan's account, or every product, meter or model asked for is one it does not list |
| `Query.PrunedScanIsFullScan` | src/query/executor.rs:38-104 | the pruned scan yields the matching rows of the full scan, in order |
| `Query.GroupAllExact` | src/query/executor.rs:249-310 | a group exists exactly when some row has its key, with the plain sum and count of its rows |
| `DrillDown.FilterMeans` | src/query/executor.rs:326-360 | on each named column a filter accepts exactly the events whose own field has one of the values; on any other name, those with such a dimension |
| `DrillDown.GroupIsNarrowedQuery` | src/query/executor.rs:270-395 | the cell of a group over any columns but times, sum and count, is the ungrouped query that filters each column by the group's value, saturating or not |
| `DrillDown.EmptyGroupIs` | src/query/executor.rs:370-395 | the group of the empty text also collects the events without the column |
| `DrillDown.TimeGroupIs` | src/query/executor.rs:386-387 | grouped by hour or day, an event goes under the decimal of the aligned hour or day that it lies in |
| `DrillDown.TotalIs` | src/query/executor.rs:249-310 | an ungrouped aggregate is one row with the sum and number of the matching events, also of none |
| `DrillDown.RawAnswerIs` | src/query/executor.rs:26-104 | a raw query answers from all stored and buffered events, whatever segments it skips |
| `DrillDown.AnswerDrillsDown` | src/query/executor.rs:26-395 | drilling down holds in a running engine, though the narrower query skips more segments |
| `Query.CollectRawEvents` | src/query/executor.rs:38-104 | the collection loop: pruned segments in range, then the memtable in range |
| `Query.AggregateEvents` | src/query/executor.rs:249-310 | the accumulation loop computes the grouped answer |
| `Rollup.ProcessExact` | src/rollup/builder.rs:13-56 | one more event keeps exactly one exact record (sum, count, first, last) per key that occurs |
| `Rollup.AggregatedExact` | src/rollup/builder.rs:13-56 | folding the events leaves one exact record per key that occurs, while the sums fit |
| `Rollup.RollupBuilder.ProcessEvent` | src/rollup/builder.rs:13-56 | the in-place entry update computes that fold one event further, saturating or not |
| `Rollup.RowStandsForEvent` | src/query/executor.rs:228-247 | a rollup row answers every filter and grouping except `kind` like each event of its key |
| `Rollup.RowsWeighLikeEvents` | src/query/executor.rs:228-247 | summing exact rows with any such weight equals summing the events they stand for |
| `RollupMetas.RollupMetaDescribes` | src/rollup/worker.rs:226-256 | a rollup segment is listed under its hour and bucket with one row per key of its raw events and exactly their products, meters and models |
| `RollupMetas.RollupMetaSums` | src/rollup/worker.rs:226-256 | its recorded sum is that of its raw events, while they fit |
| `RollupMetas.RowShows` | src/query/executor.rs:228-247 | a row shows its record as one usage event at the start of the hour, with the record's sum and the last event's time |
| `Durability.CoupledMeansReplay` | src/runtime/recovery.rs:61-93 | the unsealed WAL files replay to the in-flight messages followed by the memtable |
| `Durability.IngestKeepsCouplingIffClean` | src/api/http_server.rs:243-266 | an ingest keeps log and memory coupled if and only if it appends to a clean file or accepts nothing |
| `Durability.TornIngestLoses` | src/ingest/wal.rs:68-78 | what the log loses when it does not |
| `Durability.AckAfterTornCrashIsLost` | src/ingest/wal.rs:37-63 | after any crash that tears a line, the next acknowledged batch loses its first event |
| `TornRun.AcknowledgedEventLost` | src/ingest/wal.rs:37-63 | for every configuration and every valid event there is a run from an empty database that acknowledges the event and ends, after a restart, with nothing stored |
| `Durability.IngestCrashAccounts` | src/ingest/wal.rs:68-88 | a crash inside an append makes durable exactly the complete prefix |
| `Durability.DrainKeepsCoupling` | src/ingest/wal.rs:98-116 | sealing the memtable keeps the coupling and loses nothing |
| `Durability.FlushKeepsCoupling` | src/ingest/flusher.rs:106-117 | committing the oldest message moves exactly its events out of the unsealed log |
| `Durability.DeleteWalKeepsCoupling` | src/ingest/flusher.rs:145-151 | deleting sealed files, any of them, at any time, up or down, changes nothing unsealed |
| `Durability.RecoverKeepsCoupling` | src/runtime/recovery.rs:61-93 | recovery rebuilds the memtable as exactly the unsealed events |
| `Catalog.FlushConserves` | src/ingest/flusher.rs:75-104 | the bucket segments together hold exactly the flushed events |
| `Catalog.FlushKeepsCatalog` | src/ingest/flusher.rs:106-117 | after a commit every listed segment exists, matches its metadata and its bucket |
| `Catalog.CompactConserves` | src/compact/worker.rs:193-199 | with unique ids among the inputs, the swap leaves the raw event multiset unchanged |
| `Catalog.CompactChangesRaw` | src/compact/worker.rs:193-199 | in general the swap replaces the inputs' events by the deduplicated output and nothing else |
| `Catalog.CompactKeepsCatalog` | src/compact/worker.rs:171-214 | the swap keeps the catalogue truthful and the replaced segments unlisted |
| `Runs.StepConserves` | src/ingest/flusher.rs:106-151 | every step keeps the invariant, and the disk accounts for exactly the old events plus those the step accepted |
| `Runs.RunConserves` | src/runtime/recovery.rs:61-93 | over any run, the ledger is the initial one plus everything accepted, acknowledged events included |
| `Runs.AcknowledgedEventsSurvive` | src/runtime/recovery.rs:61-93 | from an empty database, whenever the engine is up with an empty queue, segments plus memtable are exactly the accepted events, acknowledged ones included |
| `ExactlyOnce.RunStoresUnique` | src/api/http_server.rs:209-266 | if every resent id that is stored is still known to the cache, no id is stored twice in any state of any run, whatever was evicted and wherever crashes fall |
| `ExactlyOnce.StepStoresUnique` | src/api/http_server.rs:209-266 | one such step keeps ids unique across segments, in-flight messages and memtable |
| `RetryWindow.StretchKeeps` | src/ingest/dedupe.rs:75-140 | without a restart, an id first seen at t stays cached with its payload while at most the TTL has passed and fewer ids than the capacity were registered after it |
| `RetryWindow.RegisterAllSeen` | src/runtime/recovery.rs:80-169 | recovery leaves each registered id cached with its original ingest time, at its place in the queue |
| `RetryWindow.TimelyRetriesStoreOnce` | src/api/http_server.rs:209-266 | from an empty database, with clients that retry within TTL and capacity, counting after a restart from the log and from the segments with an event of the last seven days, no id is ever stored twice |
| `RestartRuns.ResendStoredTwice` | src/runtime/recovery.rs:102-114 | for every event stamped before the recovery window there is a run from an empty database that acknowledges it twice and stores it twice |
| `RecoveryWindow.RecentIsWindow` | src/runtime/recovery.rs:102-114 | the segments recovery registers are exactly those that hold an event of the last seven days |
| `RestartRuns.RecoveredKnowsIff` | src/runtime/recovery.rs:75-169 | after a restart the cache knows an id if and only if it was replayed from the log or stands in a listed segment that holds an event of the last seven days |
| `RestartRuns.RecentEventIsKnown` | src/runtime/recovery.rs:95-169 | so every stored event of the last seven days is known |
| `RestartRuns.RecoveredKnowsAllIff` | src/runtime/recovery.rs:102-169 | after a restart the cache knows every stored id if and only if every listed segment that holds anything holds an event of the last seven days |
| `ExactlyOnce.RunStoresOnce` | src/api/http_server.rs:209-266 | in every state of every run that stays in capacity, TTL and recovery window, moreover, the cache answers for exactly what is stored |
| `ExactlyOnce.StepKeepsOnce` | src/runtime/recovery.rs:95-169 | one step keeps ids unique and the cache in line with the ledger, recovery included |
| `ExactlyOnce.ClassificationIsTruthful` | src/ingest/dedupe.rs:60-70 | new if and only if the id is not stored; duplicate if and only if the stored event equals it up to ingest time |
| `ExactlyOnce.RegisterAllKeeps` | src/runtime/recovery.rs:80-82 | registration keeps the first payload of every hash and invents none |
| `ExactlyOnce.FirstPayloadWins` | src/runtime/recovery.rs:80-82 | a retried id is duplicate or conflict according to its first-registered payload |
| `RollupSafety.TickKeepsRollup` | src/rollup/worker.rs:127-275 | a tick's new segments are exact, cover every hour below the new watermark and never double a slot |
| `RollupSafety.TargetBehindPending` | src/rollup/worker.rs:158-171 | a tick target never passes an event that is not yet in a segment |
| `RollupSafety.TickStartsEarlyEnough` | src/rollup/worker.rs:173-179 | the fresh-database clamp skips no hour that has data |
| `RollupSafety.FlushKeepsRollup` | src/ingest/flusher.rs:106-117 | flushing timely events leaves every rollup exact |
| `RollupSafety.RebuildKeepsRollup` | src/rollup/worker.rs:301-319 | a rebuild that leaves the watermark on the hour keeps every remaining slot exact and the watermark covered |
| `RollupSafety.RebuildRepairs` | src/rollup/worker.rs:301-319 | a rebuild from at or below the earliest late hour removes every inexact slot |
| `RollupRuns.RunKeepsEngine` | src/rollup/worker.rs:110-319 | the engine and rollup invariants hold in every state of every careful run without late events, in which a rebuild starts on the hour or does not rewind |
| `RollupRuns.RunRollupsExact` | src/rollup/worker.rs:110-319 | in every such state, for each key and each hour below the watermark, the live records sum to exactly the raw events |
| `RollupRuns.RunWatermarkSafe` | src/rollup/worker.rs:127-275 | in every such state the watermark is hour-aligned, at most one live rollup segment exists per hour and bucket, and no memtable or in-flight event lies below the watermark |
| `RollupRuns.RollupsSumToRaw` | src/rollup/worker.rs:226-256 | the invariant implies that sum, key by key |
| `Watermark.WatermarkMoves` | src/rollup/worker.rs:158-171 | only a rebuild lowers the watermark, and only a tick raises it, to the greatest whole hour at or below the clock less the safety lag and at or below every event in the memtable |
| `Watermark.TickMovesTo` | src/rollup/worker.rs:110-189 | a tick that neither waits nor seals moves it to that hour, exactly if the hour is ahead of it and, on a database that has never rolled up, ahead of some segment's first event |
| `Watermark.TickFirst` | src/rollup/worker.rs:127-156 | a tick waits while a sealed file is not committed, and otherwise seals a memtable that has reached the maximum age |
| `Watermark.RunStaysBehindClock` | src/rollup/worker.rs:158-171 | in no state of any run is the watermark closer to the clock than the safety lag |
| `Watermark.RunKnowsAge` | src/ingest/memtable.rs:24-32 | in every run the time kept with the memtable is that of the state in which it last filled |
| `RollupRuns.NothingPendingBelowWatermark` | src/rollup/worker.rs:127-171 | the invariant keeps every memtable or in-flight event at or above the watermark, in an hour and bucket not rolled up yet |
| `RollupRuns.RepeatedTickChangesNothing` | src/rollup/worker.rs:181-189 | a second tick at the same time changes nothing |
| `RollupRuns.RebuildThenTickRepairs` | src/rollup/worker.rs:301-319 | after arbitrary late events, a rebuild and a committing tick restore rollup = raw below the new watermark |
| `RebuildStart.RebuildRestoresIff` | src/rollup/worker.rs:192-319 | from exact rollups, after a rebuild of any range and a committing tick, rollup = raw below the new watermark if and only if the tick starts on the hour or, under every key, the events it counts again (those from its start on, where the rollup segment was kept) or leaves out (those before its start, where it was not) sum to zero |
| `RebuildStart.SettledIff` | src/rollup/worker.rs:192-319 | for a range below the watermark that starts off the hour, that is: the part of the start hour before the rebuild time sums to zero under every key, and so does every later hour whose rollup segment was kept |
| `RebuildStart.TwoTicksRestoreIff` | src/rollup/worker.rs:192-319 | after one more committing tick, rollup = raw below its watermark if and only if moreover what the first tick rolled up past its target sums to zero under every key |
| `RebuildStart.AlignedStartRestores` | src/rollup/worker.rs:301-319 | a rebuild that starts on the hour or does not rewind, and a committing tick, always give rollup = raw |
| `RebuildRuns.StartHourIsLost` | src/rollup/worker.rs:301-319 | a run from an empty database: roll an event up, rebuild from later in its hour, tick; the rollups say 0 for it below the watermark |
| `RebuildRuns.LaterHourCountsTwice` | src/rollup/worker.rs:192-319 | a run from an empty database: roll an event up, rebuild from inside an earlier hour up to no later than its own, tick; the rollups count it twice |
| `QueryRefinement.RollupQueryIsRawQuery` | src/query/executor.rs:167-222 | a RollupHourly SUM returns the same groups and totals as the RawEvents query, for any filters and grouping except `kind`, when the range cuts on the hour or at/above the watermark |
| `QueryRefinement.RunQueriesAgree` | src/query/executor.rs:167-310 | the same in every running state of every careful run from an empty database without late events, in which a rebuild starts on the hour or does not rewind |
| `QueryRefinement.SameWeights` | src/query/executor.rs:167-222 | rollup rows below the watermark plus the raw tail weigh, group by group, what the raw rows weigh |
| `QueryRefinement.ScanCoversSealed` | src/query/executor.rs:167-200 | a matching raw event is represented by a scanned rollup record if and only if it lies below the watermark |
| `QueryRefinement.ScannedRowAgrees` | src/query/executor.rs:200-213 | every scanned record is exact and matches the plan exactly as the events of its key do |
| `Compaction.PlanCompaction` | src/compact/planner.rs:28-42 | one job per bucket with too many segments, listing all of them in order, and no other |
| `Compaction.PlannedJobIsLegal` | src/compact/planner.rs:28-42 | a planned job names distinct listed segments of one bucket |
| `Compaction.CompactionKeepsAnswers` | src/compact/worker.rs:123-226 | with unique ids among the inputs, every raw query answer is the same before and after the swap |
| `Compaction.RawAnswerDependsOnEvents` | src/query/executor.rs:38-104 | a raw answer depends only on the multiset of events, not on how segments divide them |
| `Compaction.RunKeepsCatalog` | src/compact/worker.rs:171-214 | in every state of every run each listed raw segment has its file on disk, described by its metadata |
| `Compaction.ReadersAreSafe` | src/compact/worker.rs:231-276 | a segment listed in a snapshot taken at time t can be opened in every later state until t + grace |
| `Compaction.InputsAwaitGrace` | src/compact/worker.rs:231-245 | the inputs of a compaction are due for deletion exactly from its time plus the grace period on |
| `Compaction.SweepIsAtGrace` | src/compact/worker.rs:231-276 | a sweep drops exactly the records that are due, and only files of such records go |
| `CompactionPass.PassShrinks` | src/compact/worker.rs:95-117 | after a pass a bucket with more than the configured number of segments, and an event in them, is a single segment, and every other bucket has as many as before |
| `Periods.ClosedPeriodIsStable` | src/api/http_server.rs:153-187 | from a close until a reopen of that period, every run leaves its usage total unchanged and its mark in place |
| `Periods.ClosedStepAddsNoUsage` | src/api/http_server.rs:165-185 | no step adds usage to a closed period, not even a crashing ingest |
| `Periods.OtherAccountsUnaffected` | src/api/http_server.rs:165-185 | closing or reopening a period of one account changes for no batch of other accounts which events are accepted |
| `Periods.FrozenIsTotal` | src/api/http_server.rs:734-765 | with nothing in flight the frozen quantity is the period's usage plus the corrections made before the close |
| `Periods.FrozenIsUsage` | src/api/http_server.rs:734-765 | without such corrections it is the period's usage |
| `Periods.LiveTotalIsFrozenPlusAdjustments` | src/api/http_server.rs:706-776 | after any run without a reopen, once nothing is in flight, the live raw total is the frozen quantity plus later corrections and retractions |
| `Periods.RollupTotal` | src/api/http_server.rs:800-837 | the snapshot through the rollups is the raw total |
| `Periods.OpenReportIs` | src/api/http_server.rs:922-948 | an open period reports the sum of everything stored in it |
| `Periods.ClosedReportIs` | src/api/http_server.rs:949-1026 | a closed one reports its entry, exactly the corrections and retractions stored in it, and the frozen quantity plus those that fit 64 bits; without a snapshot, the sum of everything |
| `RollupCount.RollupCountIs` | src/query/executor.rs:22-29 | COUNT through the rollups is the number of rollup keys below the watermark plus the number of events from there on |
| `RollupCount.RollupCountExactIff` | src/query/executor.rs:22-29 | it never exceeds the raw COUNT, and equals it if and only if no two matching events below the watermark share a rollup key |
| `RollupCount.FrozenCountExactIff` | src/api/http_server.rs:800-837 | closing a period freezes the number of its events if and only if no two of them below the watermark share a rollup key |
| `CountRuns.TwoEventsCountAsOne` | src/api/http_server.rs:800-837 | a run from an empty database: two acknowledged events of one rollup key, flushed and rolled up; closing their period freezes an event count of 1 |
| `Periods.NetTotalExactIff` | src/api/http_server.rs:949-984 | the reported net total is the live total if and only if what was counted before the close equals the adjustments outside 64 bits, or the sum saturates at a live total of 2^127 - 1 |
| `Periods.ReportedTotalIsLiveIff` | src/api/http_server.rs:949-984 | the same after any run from a close |
| `PeriodRuns.WideCorrectionIsDropped` | src/api/http_server.rs:967-972 | a run from an empty database: close a period, acknowledge one correction of 2^63 units; the live total is 2^63 and the report says 0 |
| `PeriodRuns.EarlyCorrectionCountsTwice` | src/api/http_server.rs:949-984 | a run from an empty database: acknowledge a correction, close its period; the report is twice the live total |
| `ManifestLog.CurrentRoundTrip` | src/storage/manifest.rs:171-179 | the decimal written to CURRENT is read back as the same number |
| `ManifestLog.WalkBackFindsNewest` | src/storage/manifest.rs:237-270 | whatever happened to the files, a load returns the newest generation at or below CURRENT that parses, and fails only if none does |
| `ManifestLog.SaveIsAtomic` | src/storage/manifest.rs:153-194 | wherever a save stops, a load returns the old manifest, or the new one exactly from the CURRENT rename on |
| `ManifestLog.LoadReturnsLatest` | src/storage/manifest.rs:153-279 | after any run of saves and crashes a load returns the last completed save or a later crashed one, never an older one and never an abandoned generation above CURRENT |
| `ManifestLog.RunKeepsHistory` | src/storage/manifest.rs:153-338 | after any run of saves and crashes, every retained generation at or below CURRENT holds the manifest of the save that published it, the last ten published are retained, and right after a completed save nothing else is |
| `ManifestLog.CorruptionRollsBack` | src/storage/manifest.rs:227-279 | after any such run, with the files above a retained generation destroyed, a load returns the manifest published under it |
| `ManifestLog.ManifestStore.Save` | src/storage/manifest.rs:153-194 | passes through every stage in order and ends with the pruned directory |
| `ManifestLog.ManifestStore.PruneOldGenerations` | src/storage/manifest.rs:313-338 | the directory loop deletes exactly the generations below the floor |
| `ManifestLog.ManifestStore.LoadFromGenerations` | src/storage/manifest.rs:227-279 | the backward loop finds the generation the specification names, or the same error |
| `ManifestLog.ManifestStore.Load` | src/storage/manifest.rs:209-301 | generations, then a legacy file migrated into generation 1, then a new database |
| `Codecs.DictRoundTrip` | src/storage/segment_writer.rs:183-199 | dictionary lookup undoes dictionary encoding |
| `Codecs.OptionDictRoundTrip` | src/storage/segment_writer.rs:203-224 | the same with missing values |
| `Codecs.EncodeDictStrings` | src/storage/segment_writer.rs:183-199 | the loop with its index map builds the dictionary in order of first occurrence |
| `Codecs.EncodeDictOptionStrings` | src/storage/segment_writer.rs:203-224 | the nullable loop does too |
| `Codecs.DeltaRoundTrip` | src/storage/segment_writer.rs:228-236 | wrapping deltas add back up to the column, also when differences overflow 64 bits |
| `Codecs.EncodeDelta` | src/storage/segment_writer.rs:228-236 | the loop computes the deltas |
| `Codecs.DecodeDelta` | src/storage/segment_reader.rs:340-350 | the running sum computes the column |
| `Codecs.ZigzagRoundTrip` | src/storage/segment_writer.rs:263-265 | zigzag is undone on every 128-bit value, extremes included |
| `Codecs.UnzigzagRoundTrip` | src/storage/segment_reader.rs:437-438 | and conversely on every unsigned 128-bit value |
| `Codecs.VarintRoundTrip` | src/storage/segment_reader.rs:419-436 | a varint is read back from any surrounding bytes, ending where it ended |
| `Codecs.ZigzagColumnRoundTrip` | src/storage/segment_writer.rs:243-258 | a quantity column is read back |
| `Codecs.EncodeZigzagVarint` | src/storage/segment_writer.rs:243-258 | the nested loops produce the count and the varints |
| `Codecs.DecodeZigzagVarint` | src/storage/segment_reader.rs:412-442 | the nested loops parse them, or fail exactly where the specification fails |
| `Codecs.RleRoundTrip` | src/storage/segment_writer.rs:274-292 | expanding the runs gives the column back |
| `Codecs.EncodeRle` | src/storage/segment_writer.rs:274-292 | the run loop computes the runs, its counter saturating at 32 bits |
| `Codecs.DecodeRle` | src/storage/segment_reader.rs:393-410 | the expansion loop with its size guard computes the column or fails |
| `SegmentCodec.ChunksRoundTrip` | src/storage/segment_reader.rs:131-144 | decoding all fourteen encoded columns gives them back |
| `SegmentCodec.RowsOfColumns` | src/storage/segment_reader.rs:196-226 | reading rows off the columns gives the pushed events, field by field |
| `SegmentFile.ReadColumnsBack` | src/storage/segment_reader.rs:93-128 | the column entries written one after another are read back by name |
| `SegmentFile.SegmentRoundTrip` | src/storage/segment_writer.rs:79-164 | parsing a written file yields the same events in order, for every sequence shorter than 2^32 whose columns fit their length fields |
| `SegmentFile.FrameIs` | src/storage/segment_format.rs:1-39 | the frame of a written file, byte by byte: both marks, version, row and column counts, and the checksum of everything before it |
| `SegmentFile.ColumnEntryIs` | src/storage/segment_format.rs:10-17 | a column entry, byte by byte: name length, name, encoding number, codec 1, payload length, payload |
| `SegmentFile.RawSegmentWriter.WriteEvent` | src/storage/segment_writer.rs:58-74 | pushes one row onto every column |
| `SegmentFile.RawSegmentWriter.Finish` | src/storage/segment_writer.rs:79-164 | the assembly loop produces exactly the specified bytes |
| `SegmentFile.IndexesPastEndIff` | src/storage/segment_reader.rs:93-128 | opening indexes past the end, and panics, if and only if the frame is right and a counted column entry is cut off right after its name |
| `SegmentFile.CutFilePanics` | src/storage/segment_reader.rs:93-128 | a sealed file that counts one column and ends after an empty name is such a file |
| `SegmentFile.OpenSegment` | src/storage/segment_reader.rs:40-190 | the column walk parses a file as specified, rejects it, or indexes past its end |
| `SegmentFile.DecodeChunks` | src/storage/segment_reader.rs:131-144 | decodes each column by its recorded encoding, or rejects the file |
| `SegmentFile.RawSegmentReader.ReadNext` | src/storage/segment_reader.rs:196-226 | the cursor yields the next row, the end, or an error for an unknown kind |
| `SegmentFile.RawSegmentReader.ReadAll` | src/storage/segment_reader.rs:196-226 | draining the cursor yields all rows in order |
| `Sql.AcceptedIffSupported` | src/query/sql.rs:256-286 | the translator accepts exactly AND-trees of equalities, INs and time ranges over literals |
| `Sql.RangeMeaning` | src/query/sql.rs:325-336 | half-open bounds with saturating adjustment mean the comparison, for times below the maximum |
| `Sql.DecimalParses` | src/query/sql.rs:322-324 | an integer literal reads as its number, with or without a plus sign, exactly if it fits 64 bits |
| `Sql.PlanAccepts` | src/query/sql.rs:256-336 | an event satisfies the clause exactly when the plan matches it and it belongs to every named account |
| `Sql.WherePreservesMeaning` | src/query/sql.rs:256-336 | unless two different accounts are named, the plan accepts exactly the events that satisfy the clause |
| `SqlFaithful.PlanIsConstrained` | src/query/sql.rs:256-336 | the plan holds exactly the clause's tightest bounds, its value lists and its last named account |
| `SqlFaithful.WitnessMatches` | src/query/executor.rs:312-345 | a clause whose bounds leave a time and whose lists leave every column a value is matched by some event |
| `SqlFaithful.SatisfiesIff` | src/query/sql.rs:256-336 | an event satisfies a clause exactly when its time lies within the bounds the clause means (hour bounds included) and its columns, time columns included, and account are as listed |
| `SqlFaithful.FaithfulIff` | src/query/sql.rs:256-336 | plan and supported clause accept the same events if and only if the named accounts agree, no time column is compared to values and the plan's bounds are the meant ones, or plan and clause both contradict themselves |
| `SqlFaithful.HourBoundsAsMeant` | src/query/sql.rs:325-336 | with `hour_start_ms` bounds that fall on the hour the plan's bounds are the meant ones |
| `SqlFaithful.RangesOnlyFaithfulIff` | src/query/sql.rs:298-304 | with time given by ranges of `timestamp_ms` only: if and only if the named accounts agree, or the bounds or value lists contradict themselves |
| `Sql.LastAccountWins` | src/query/sql.rs:298-304 | with two accounts the plan accepts events of the second, which do not satisfy the clause |
| `Sql.WhereTranslator.ExtractFilters` | src/query/sql.rs:256-286 | the recursive walk edits the plan as specified, with the first error in order |
| `Sql.WhereTranslator.AddRange` | src/query/sql.rs:306-336 | column, literal and integer checks, then the bound update |
| `Recovery.SidecarRoundTrip` | src/storage/dedupe_index.rs:46-119 | a sidecar read back is what was written; with 2^32 entries or more it is rejected, never wrong |
| `Recovery.SidecarFrameIs` | src/storage/dedupe_index.rs:30-64 | a sidecar begins with its mark and the number of its entries |
| `Recovery.WrittenSidecarsAreTruthful` | src/storage/dedupe_index.rs:66-119 | a directory whose sidecars are missing, unreadable or as written never misleads recovery |
| `Recovery.SidecarsDoNotMatter` | src/runtime/recovery.rs:102-169 | whichever sidecars are missing or rejected, the rebuilt cache and order equal those of a full scan |
| `Recovery.RecoveredClassifies` | src/runtime/recovery.rs:69-169 | every id that was replayed, or stands in a segment with an event of the last seven days, is then classified by its first-registered payload |
| `RestartRuns.ExpiredEntrySurvives` | src/ingest/dedupe.rs:126-140 | a run from an empty database, with one event replayed and one stored at the restart, after which a commit leaves an entry older than the TTL cached |
| `Recovery.ReplayLog` | src/runtime/recovery.rs:75-86 | the nested replay loops fill cache and memtable with exactly the logged events in order |
| `Recovery.RebuildDedupe` | src/runtime/recovery.rs:111-169 | the segment loop registers sidecar entries or rescanned rows as specified |
| `Recovery.RecoverUnder` | src/runtime/recovery.rs:61-169 | dropping sealed files, replay, rebuild and reopen together perform the recovery step |
| `Recovery.RunStartupRecovery` | src/runtime/recovery.rs:29-190 | load the catalogue, clear temporary files and recover under it; it fails exactly where the catalogue cannot be loaded |
| `Flushing.PartitionByBucket` | src/ingest/flusher.rs:74-78 | the map loop splits the events by bucket, each in arrival order |
| `Flushing.WriteBuckets` | src/ingest/flusher.rs:87-104 | one sorted, described segment per bucket that occurs, in bucket order, under unused ids; a failing write leaves no segment and hands back the events from its bucket on |
| `FlushFailure.FailedFlushForgets` | src/ingest/flusher.rs:87-104 | after a failed write, memory has lost exactly the events of the buckets before it, hence none if and only if the first write failed |
| `FlushFailure.SoleMessageLoses` | src/ingest/flusher.rs:87-151 | with nothing else queued, the next seal and flush take exactly those events out of the ledger |
| `FlushFailure.QueuedMessageLoses` | src/ingest/flusher.rs:87-151 | with another message queued, its flush takes the whole failed message out of the ledger |
| `FlushFailure.FailedFlushSafeIff` | src/ingest/flusher.rs:87-151 | after the next commit the ledger is unchanged if and only if the first write failed and nothing else was queued |
| `FlushFailure.FailedSaveForgets` | src/ingest/flusher.rs:106-136 | after a failed manifest save, neither memory nor the disk as the manifest in memory describes it holds the message |
| `FlushFailure.FailedSaveLoses` | src/ingest/flusher.rs:106-136 | the next commit takes the whole message out of the ledger |
| `FlushFailureRuns.EarlierBucketLost` | src/ingest/flusher.rs:87-104 | a run from an empty database: two acknowledged events of two buckets, the second write fails, seal and flush; the first event is nowhere |
| `FlushFailureRuns.QueuedMessageLost` | src/ingest/flusher.rs:87-151 | a run from an empty database: two sealed messages, the first write of the first fails, the second is flushed; the first event is in the memtable and nowhere on disk |
| `FlushFailureRuns.UnsavedMessageLost` | src/ingest/flusher.rs:106-136 | a run from an empty database: two sealed messages, the save for the first fails, the second is flushed; the first event is nowhere |
| `Rolling.BuildHour` | src/rollup/worker.rs:201-240 | skipping segments by time range, the scan leaves one builder per bucket with events in the hour and no rollup yet, each holding the fold of those events |
| `Rolling.RollHour` | src/rollup/worker.rs:201-256 | writes one rollup segment for each such bucket |
| `Rolling.RollHours` | src/rollup/worker.rs:198-258 | the hour loop covers every hour-long window from any start to the target, with one new segment per missing window and bucket; it ends at the first window end at or past the target, which off the hour lies past it |
| `App.AppState.HandleIngest` | src/api/http_server.rs:139-291 | admission, triage, log append and commit are one ingest step, followed by a drain step exactly when the memtable is too large; the counts add up |
| `App.AppState.CommitNovel` | src/api/http_server.rs:263-266 | commits and inserts the new events in order |
| `App.AppState.ForceDrain` | src/rollup/worker.rs:325-342 | a drain step, or nothing when the memtable is empty |
| `App.AppState.HandleMessage` | src/ingest/flusher.rs:41-63 | drops an empty message; otherwise a flush commit followed by the deletion of the sealed files, the failed-write step or the failed-save step, each exactly when its fault occurs |
| `App.AppState.AttemptFlush` | src/ingest/flusher.rs:65-153 | the attempt alone; on a failed write it leaves the disk as it was and hands back the events from the failing bucket on |
| `Flushing.RollbackPartial` | src/ingest/flusher.rs:214-218 | removing the segments written so far restores the segment files |
| `App.AppState.RollupTick` | src/rollup/worker.rs:110-284 | skip, force-drain, nothing to do, or commit, exactly as the tick step says; the report counts segments and hours and gives the watermark, or with nothing to do on a new database the hour of the first data |
| `App.AppState.RebuildRollups` | src/rollup/worker.rs:301-319 | drops the overlapping segments, rewinds the watermark, reports how many were dropped |
| `App.CountFindsMissing` | src/compact/worker.rs:177-191 | counting listed inputs equals the number of inputs if and only if none is missing |
| `App.AppState.RunOnePlan` | src/compact/worker.rs:123-226 | swaps the inputs for the output if and only if as many listed segments as inputs are found and they hold an event; otherwise leaves everything but the id supply unchanged |
| `App.CompactedIsStep` | src/compact/worker.rs:123-226 | for distinct inputs of one bucket the swap is a compaction step |
| `App.AppState.SweepPendingDeletions` | src/compact/worker.rs:231-276 | unlinks exactly the files of the records whose commit time plus grace has come, drops exactly those records, and counts them |
| `App.AppState.SweepPass` | src/compact/worker.rs:95-97 | the same as two steps of a run, after which no file of such a record is left |
| `App.KeysDropExpired` | src/compact/worker.rs:262-269 | retaining by the key of time and inputs drops exactly the expired records |
| `App.AppState.CompactionTick` | src/compact/worker.rs:95-117 | a whole pass is a run of the state machine: the sweep and then the jobs planned for the listing, in order, as `PassShrinks` takes it; a job commits exactly if its inputs hold an event, and the count returned is the number of those |
| `App.AppState.RunJob` | src/compact/worker.rs:107-114 | one planned job is one step, commits exactly if its inputs hold an event, and leaves the later jobs as planned |
| `App.AppState.ExecutePlan` | src/query/executor.rs:26-36 | the collected and aggregated answer is the specified one |
| `App.AppState.ClosePeriod` | src/api/http_server.rs:706-776 | closes with a snapshot; closing again returns the first entry and changes nothing |
| `App.AppState.ReopenPeriod` | src/api/http_server.rs:853-880 | removes exactly that period's mark and says whether there was one |
| `App.AppState.GetPeriod` | src/api/http_server.rs:896-1029 | live total while open; once closed the frozen entry, the adjustments, their sum, the net total, and for entries without a snapshot the live total |
| `App.StartEngine` | src/main.rs:118-150 | startup loads the catalogue, fixes the bucket count of a new database and brings the engine from any crashed directory to a running state by the recovery step |
| `App.NewDirectoryIsInitial` | src/main.rs:118-150 | an empty directory starts as an empty database with the configured bucket count, and a database that has a bucket count keeps it |

## Left out

- Failed writes outside the flusher: a log append, or a manifest save by a tick, a compaction or a period handler, that returns an error instead of killing the process.
- Loss of power: a crash is the death of the process, so what was handed to the operating system stays. Strict and Fast mode (`src/api/http_server.rs:251-259`) then behave alike; unsynced writes of Fast mode are not modelled.
- Durability across corrupted manifest generations: rolling back can lose events whose WAL is already gone.
- Interleavings inside a rollup tick, and flush messages that overtake one another.
- Grouped COUNT over rollups, and `kind` filters or grouping on rollups, which differ from raw by design.
- Projection, GROUP BY and error texts of the SQL parser; HTTP routing, JSON shapes, CLI, Parquet export, configuration, process lock, logging and scheduling.
- The memtable's size estimate per event is a parameter; generation and WAL file names are their numbers; checksums and input lists in segment metadata are not modelled. Log text is characters: a cut inside a UTF-8 character, a trailing carriage return and invalid UTF-8 do not occur.
- Time arithmetic in the rollup and compaction workers is over unbounded integers; overflow of `i64` there is not modelled.
- App.AppState.HandleIngest: a log append that fails without killing the process is not modelled.
- App.AppState.HandleMessage: handles the oldest message; it keeps one manifest, so after a failed save its state is the engine's own view, while the disk has the old manifest until the next save.
- App.AppState.AttemptFlush: the same.
- RestartRuns.RecoveredKnowsIff: assumes a truthful catalogue, which every run keeps, and positive stored times, since recovery goes by the recorded time ranges.
- RestartRuns.RecoveredKnowsAllIff: assumes the same.
- Recovery.RecoveredClassifies: assumes the same.
- RollupRuns.RunKeepsEngine: assumes that the raw quantities fit 128 bits whenever a tick runs, since exactness is false of saturated sums.
- RollupRuns.RunRollupsExact: assumes the same.
- RollupRuns.RunWatermarkSafe: assumes the same.
- QueryRefinement.RunQueriesAgree: assumes the same.
- FlushFailure.FailedFlushSafeIff: speaks of the commit right after the failure, with no ingest in between.
- FlushFailure.FailedSaveLoses: the same.
- RollupCount.RollupCountIs: speaks of ungrouped plans whose range cuts on the hour, as `RollupQueryIsRawQuery` does.
- RebuildStart.RebuildRestoresIff: the ticks follow the rebuild directly, with no late event in between, and the raw quantities fit 128 bits.
- RebuildStart.TwoTicksRestoreIff: the same.
- Codecs.DecodeRle: the source reserves room for the sum of all runs before its size guard looks at any (`src/storage/segment_reader.rs:396`); memory use is not modelled.
- SegmentFile.IndexesPastEndIff: speaks of indexing past the end; a panic or abort of that reservation is not modelled.
- WalText.Wal.DeleteFilesThrough: deletion errors, which the source logs and ignores, do not occur.
