# Live timing and archive repair: a Dafny model

This project models the live-timing pipeline of the racing server (`server/timing`) and the
journaled repair of its video archive (`server/jobs`), and proves what each protocol keeps over
whole runs. Tables are maps and sequences; one write transaction is one step; a crash loses
everything in memory between two steps. `dafny verify dfyconfig.toml` checks the whole project.

## How it is laid out

| files | what they model |
|---|---|
| `StreamOutbox`, `StreamProtocol`, `StreamGapFree`, `StreamRace`, `StreamBounds`, `StreamServing` | Server-sent event delivery: outbox, one polling broker, bounded queues, snapshot barrier, replay and resets. `StreamProtocol` is the state machine, `StreamGapFree` its invariant and results, `StreamRace` what an unsafe registration leads to, `StreamBounds` what holds in every run, `StreamServing` the broker and handler objects that perform the steps |
| `CursorWindow` | which EventSource cursors may be replayed while retention and rebuilds delete rows |
| `ResultGrid`, `GridCheckpoint`, `GridOrder`, `GridReachable`, `GridReducer` | the sparse result grid, its checkpoint document and strict restore, what depends on dict order, which grids are reachable, and the mutable object |
| `RawIngest`, `IngestSafety`, `IngestRetention`, `IngestErrors`, `IngestStore` | frames, runtime checkpoints, the retention floor, restart, rebuild; the proofs; frames whose processing raises; the store object |
| `ParsedJson`, `BoundaryState`, `MetricScopes`, `MetricStore`, `MetricRuns`, `MetricChart`, `MetricTables` | the metric runner's event cursor and the charts it forces, ranked current rows, sparse charts and the outbox in one transaction; convergence, chart sparseness; the tables object |
| `IngestGaps`, `MetricReplay`, `MetricRetry`, `MetricRestart`, `MetricCrash` | the ingest worker, its restarts and the gap rows they leave; exactly-once effects of the runner over them; what a retry does to charts; when a run with restarts leaves what a run without them leaves; runs where it does not |
| `MetricTail`, `MetricEvidence`, `MetricTailProof`, `MetricTicks`, `GreenCoverage` | the 72-lap tail that stands in for a full scan, what clean verdicts rest on and the guard on it, one tick and rolling pace, whole runs of ticks, and the Green sweep |
| `CanonicalLaps`, `CanonicalMatch`, `CanonicalRebuild`, `CanonicalSpacing`, `CanonicalLive`, `CanonicalStore` | lap boundaries and laps of each car, LAST matching, the rebuild and what it says about the stored passings, when its constraints hold, and how it differs from recording live; the tables object |
| `ScreenMessages`, `RaceControl` | parsing of `m_*` invocations and the Race Control board against the provider's collection |
| `Timeline`, `ArchiveRepair`, `ArchiveCleanup`, `SessionGroups`, `ArchiveRegroup` | the holes in a recording; stage, journal, publish and clean-up of a repair; the grouping of parts into sessions, and again after a crash |

Each state machine has a specification function per operation. The classes carry the fields the
source updates in place, and each method's postcondition equates its new state with that
function; what the source promises is proved about the functions.

## Where the code does not do what it promises

For each, a lemma with a concrete input, and the exact condition under which the promise holds.

- **Two first subscribers.** `subscribe` reads the newest id across an `await` and then assigns
  it to the shared cursor (`sse.py:438-444`). In `SubscribeRaceLosesARow` a browser misses a row.
  `CursorMoveSafe` is the condition, and `SafeRun` a run that keeps to it: `RegisterCostsExactly`
  shows it exact for the invariant, `SafeExactlyWhenNoGapFollows` for delivery.
- **Cursor 0.** `requires_reset` alone accepts a stale cursor 0 of a session without a floor
  (`StaleZeroSlipsThrough`, `WindowAloneRefusesStaleExactly`); the endpoint's own test closes it.
- **Dict order in checkpoints.** A layout update lets the later cell win when two cells come to
  share a column, and a checkpoint stores cells sorted. `CheckpointForgetsCellOrder` shows
  different values with and without a restart; `SafeMessageExactly` says which messages are safe
  on which grid, `OrderInsensitiveExactly` which layouts are on all, and `Tidy` in `RawIngest`
  restricts runs to safe messages.
- **Strict restore.** `restore_snapshot` also accepts documents that no run leaves behind
  (`AcceptedButUnreachable`); `AcceptedIsReachableExactly` says which.
- **A frame that raises.** On an error the worker goes on with the next live frame, and the process
  keeps the reducer as the error left it; the frame is taken up again at the next start, after later
  ones (`ingest.py:140-272`). It can overwrite what they wrote (`RaisedFrameComesLast`), and once a
  later frame has saved the reducer it can be lost for good (`RaisedFrameIsForgotten`).
  `ErrorsAreCrashes` shows that the history is kept where every error ends the process, which the
  runs assume; `ComesBackExactly` when a frame that comes back does no harm.
- **A restart is heard.** A run that died leaves a gap, which stays open until the next live frame.
  A frame stored before and evaluated after it says OFFLINE, stores another event cursor and
  announces a gap that the run without the crash never has (`CrashBeforeCommitIsHeard`,
  `RestartIsAnnounced`). `RestartsGoUnheardExactly` is the exact condition, `UnheardWhenFresh` the
  same read off the steps.
- **A retry can move a chart.** With that gap open, a frame evaluated again forces its session
  point. The current row keeps the first evaluation; a chart that had left the first point out
  takes the second (`CrashLeavesATrace`, `RetryPointExactly`, `RetryForcesOnlySession`,
  `CrashesLeaveNoTraceExactly`).
- **Failed attempts.** Each lost connection or failed attempt opens a gap row and only the last one
  is closed (`ingest.py:265`). After two, the channel stays OFFLINE over any number of live frames
  (`SecondFailureStays`, `ReconnectClosesExactly`, `StuckStaysOpen`).
- **Late flag history.** The guard of the bounded path compares the current flag, while history
  rewrites older periods: a lap that a late red flag has spoilt stays in the clean count
  (`LateRedIsMissed`). `BoundedTailEqualsFullScanExactly` is the exact condition,
  `BoundedTailEqualsFullScan` one on the stored rows. Every other stored value is exact.
- **Charts at one instant.** Charts compare source keys as text, so `c:10` comes before `c:9`;
  current rows compare message ids first (`SameInstantKeepsTheNinth`, `TickIsShownExactly`).
- **73 STATE cells.** The bounded path keeps 73 STATE cells per car; older laps can lose their
  state and the pace windows with it, even when every lap fits (`CrowdedStatesChangePace`,
  `StateTailExact`). Counts do not suffer from it.
- **Laps recorded live.** A passing stored after the finish of the same instant is in the rebuilt
  lap and not in the recorded one (`LateSectorIsMissed`, `LapIsFinalExactly`).
- **Receive-time mark.** The floor's receive time is kept as a high-water mark, but a pass that
  deletes a frame below the old floor leaves it alone (`LateFrameEscapesTheMark`,
  `MarkCoversExactly`). The frame ids are covered regardless.
- **Zero-length flag periods.** One strictly inside a lap rejects it, although no instant is in
  it (`ZeroLengthPeriodRejects`, `OverlapIsSharedInstant`).
- **Returning messages.** A Race Control message that is deleted and created again keeps fields
  the provider no longer shows (`ReturningMessageIsStale`, `StaleExactly`).
- **Left-over parts.** A crash in the middle of a merge's clean-up leaves a target shorter than the
  session; a part still listed may then group alone and be annotated after it has been deleted
  (`ThirdPartGroupsAlone`, `LeftOverIsAnnotated`, `RegroupsExactly`).

## What the runs assume

- Streams: no outbox row is deleted while a stream that has not passed it is open; deletions are
  the subject of `CursorWindow`. A snapshot's barrier is its session's newest row.
- Ingest: a rebuild runs while no worker does, and an error while a frame is processed counts as a
  crash, except in `IngestErrors`. Frames left undecoded at a crash stay undecoded, as in the code. Checkpoint rows may be
  corrupted at any time; corruption is detected, never undone.
- Metrics: `Lawful` in `MetricReplay` states what exactly-once needs of the engine: accepted writes,
  storable cursors that name the open gap, frames in rank order, and the same scopes whatever
  tables and gap rows hold. Values, cursors and events may depend on all of them. `Steady` in
  `MetricRetry`, used where cursors or announcements of two runs are compared, says that they come
  from the frame's facts, the open gap and the cursor before, and not from stored totals or clean
  verdicts. Alerts, whose text is of values, are not among the announcements.
- Metrics: a run without crashes loses the same connections, before the same frames.
- Bounded tail: LAST and STATE cells do not change once stored. Flag periods, gaps, pit stops and
  the laps that cells are linked to may change in any way.
- Archive: each restart resumes the same target, and nothing else writes the keys involved.

## Model

| member | source | states |
|---|---|---|
| `StreamGapFree.GapFreeDelivery` | server/timing/sse.py:434-528 | for every interleaving of appends, polls, queue overflows and client steps in which no late registration takes a row from a stream: the rows a browser has been sent since its last full state or accepted cursor are exactly its session's rows in (start, delivered], once each, in increasing id |
| `StreamGapFree.UndeliveredIsAccounted` | server/timing/api.py:649-726 | in the same runs, a committed row above `delivered` is always behind a pending reset, queued, in the polled batch, above the broker cursor, still to be replayed, or in the full state being read |
| `StreamGapFree.QuietStreamIsCurrent` | server/timing/api.py:695-726 | in the same runs, a live stream with an empty queue and a caught-up broker has been sent every row of its session |
| `StreamGapFree.StepKeepsInvariant` | server/timing/api.py:606-726 | the invariant behind the three rows above, kept by each of the sixteen steps |
| `StreamBounds.StreamsAreBounded` | server/timing/api.py:660-693 | in every run no queue outgrows its size, and a replay sends at most 1,024 rows before it gives way to a full state |
| `StreamBounds.NoForeignHeat` | server/timing/api.py:674-722 | in every run a browser is never sent a delta of another heat than the one its last full state showed |
| `StreamGapFree.RegisterCostsExactly` | server/timing/sse.py:438-444 | in any state of such a run, whatever is in flight and however many streams there are: a registration keeps the invariant exactly when it takes no row from any stream, that is, when every row a stream is owed between the broker's reach and the reading is queued, in the polled batch or still to be replayed |
| `StreamRace.SafeExactlyWhenNoGapFollows` | server/timing/sse.py:438-444 | for streams that nothing makes start over (no replay at its limit, no row of another heat in queue, replay, batch in flight or above the reading, and a batch no longer than the queue): a registration is safe exactly when no continuation without further registrations has a gap in any stream |
| `StreamRace.LostRowMakesAGap` | server/timing/sse.py:438-511 | a registration that takes a row from such a stream, with rows of its session in flight or newer than the reading or not, can be followed, without any further registration, by a delivery with that row missing |
| `StreamGapFree.SubscribeRaceLosesARow` | server/timing/sse.py:438-444 | a concrete run of two first subscribers in which the first one is sent row 2 and never row 1 |
| `StreamOutbox.FirstAfterIsContiguous` | server/timing/sse.py:269-274 | a polled batch is the contiguous run of rows above the cursor; shorter than the limit, it reaches the newest one |
| `StreamOutbox.FirstOfSessionIsContiguous` | server/timing/sse.py:173-199 | a session batch is the contiguous run of that session's rows; shorter than the limit, it reaches the newest one |
| `StreamServing.TimingStreamBroker.Register` | server/timing/sse.py:434-445 | the broker object registers a queue as one of the two protocol steps does, with or without a late reading |
| `StreamServing.TimingStreamBroker.Unsubscribe` | server/timing/sse.py:447-455 | and drops it again |
| `StreamServing.TimingStreamBroker.FanOut` | server/timing/sse.py:513-528 | the loop over queues is the protocol's fan-out, overflow included |
| `StreamServing.TimingStreamBroker.PollBatch` | server/timing/sse.py:460-511 | a polled batch moves the cursor and the queues as the protocol delivers it |
| `StreamServing.EventStream.YieldReset` | server/timing/api.py:701-707 | a full state replaces barrier, heat and `delivered`, and empties what was received, as the protocol's refresh does |
| `StreamServing.EventStream.YieldEvent` | server/timing/api.py:683-685 | a delta is sent once and moves `delivered` to its id |
| `StreamServing.EventStream.ReplayBatch` | server/timing/api.py:672-693 | the replay loop over one batch is the protocol's row-by-row replay, up to a row of another heat |
| `StreamServing.EventStream.HandleItem` | server/timing/api.py:695-724 | taking one queued item does what the protocol's step does: reset, skip, heat change, delta, or quality |
| `CursorWindow.DeletedIsBelowFloor` | server/timing/retention.py:318-355 | over every history of appends, retention and rebuilds, a deleted outbox row is at or below its session's floor |
| `CursorWindow.AcceptedCursorMissesNothing` | server/timing/sse.py:62-81 | a cursor that `requires_reset` accepts can be replayed: the rows left above it are all the session ever had above it |
| `CursorWindow.RowCursorIsAcceptedExactly` | server/timing/sse.py:70-81 | the cursor of any row its session ever had is refused only when the floor has reached it |
| `CursorWindow.WindowAcceptsExactly` | server/timing/sse.py:222-257 | on any tables, a cursor is accepted exactly while its row is stored above the floor, and cursor 0 exactly while there is no floor |
| `CursorWindow.FloorsAreDeletedRows` | server/timing/retention.py:318-355 | floors are no higher than they must be: each is the id of a row that was deleted |
| `CursorWindow.RebuildExpiresCursors` | server/timing/rebuild.py:193-208 | every cursor issued before a rebuild is refused for ever after |
| `CursorWindow.WindowAloneRefusesStaleExactly` | server/timing/sse.py:70-81 | without the endpoint's own test for cursor 0, exactly cursor 0 of a session without a floor slips through |
| `CursorWindow.StaleZeroSlipsThrough` | server/timing/sse.py:70-81 | a concrete run that ends with a stale cursor 0 which `requires_reset` accepts and the endpoint refuses |
| `CursorWindow.StreamTables.ReadCursorWindow` | server/timing/sse.py:222-257 | floor, newest id and existence of the cursor, as the window's specification reads them |
| `CursorWindow.StreamTables.ApplyStreamRetention` | server/timing/retention.py:318-355 | the delete loop and the floor upserts leave the rows and floors of the specified retention step |
| `ResultGrid.LayoutUpdateKeepsCanonical` | server/timing/result_grid.py:92-130 | a layout update to an unambiguous layout keeps each recognized key's value that still has a header, drops the rest and shows nothing new |
| `ResultGrid.UniqueIdentityMoves` | server/timing/result_grid.py:118-127 | every cell whose header is unique before and after moves with it, parameters and presentation included |
| `ResultGrid.RemapInventsNothing` | server/timing/result_grid.py:118-127 | each remapped cell is an old cell of the same identity, carried by exactly one new header |
| `ResultGrid.ChangesAreLastWriter` | server/timing/result_grid.py:155-176 | a cell holds its newest change under a ready schema, and none reaches it under any other |
| `ResultGrid.MetadataIsNewest` | server/timing/result_grid.py:155-176 | after two batches the metadata is the newest 200 entries of both, though each batch is cut by itself |
| `ResultGrid.RemovalsRemoveExactly` | server/timing/result_grid.py:178-183 | a removal takes away the rows its entries name, and no other |
| `ResultGrid.SnapshotShowsItsCells` | server/timing/result_grid.py:138-153 | after `r_i` the grid shows exactly that snapshot's cells, or none when the schema is not ready |
| `ResultGrid.ReachableIsWf` | server/timing/result_grid.py:64-84 | every reachable grid: rows only under a ready schema, columns and conflicts derived from the layout, at most 200 metadata entries, no empty row |
| `GridCheckpoint.CheckpointRoundTrip` | server/timing/result_grid.py:204-286 | restoring a reachable grid's checkpoint, in whatever order the JSON text lists its members, succeeds and rebuilds it up to the order of cells inside a row |
| `GridCheckpoint.DecimalRoundTrip` | server/timing/result_grid.py:288-293 | row and column keys written with `str` come back as the same index |
| `GridCheckpoint.AcceptedIsWfExactly` | server/timing/result_grid.py:223-286 | a restored grid keeps the reducer's invariant unless it has an empty row, or rows under conflicting headers |
| `GridReachable.ReachableExactly` | server/timing/result_grid.py:64-183 | exactly the grids that keep the invariant, are pending only without a layout, are pending while no layout was ever announced, and hold no cell among their metadata are reached by some run of provider messages |
| `GridReachable.AcceptedIsReachableExactly` | server/timing/result_grid.py:223-286 | read off the document: of those a strict restore accepts, exactly the ones without a row left empty, without rows beside conflicts, without a cell as metadata, pending only without a layout, and pending at generation 0, give a grid that a run could have reached |
| `GridReachable.AcceptedButUnreachable` | server/timing/result_grid.py:223-286 | three concrete documents that a strict restore accepts although no run reaches what they restore to |
| `GridOrder.OrderInsensitiveExactly` | server/timing/result_grid.py:119-127 | of layouts, whatever cells are stored: an update ignores dict order exactly when no two previous headers share an identity that the next layout carries once |
| `GridOrder.RowOrderInsensitiveExactly` | server/timing/result_grid.py:118-127 | of stored cells: what a row becomes does not depend on their order exactly when cells that go to one column hold the same |
| `GridOrder.SafeMessageExactly` | server/timing/result_grid.py:92-183 | a message leaves any two grids of the same cells the same exactly when it is no layout update that brings together cells that hold different things |
| `GridOrder.CheckpointForgetsCellOrder` | server/timing/result_grid.py:208-215 | a concrete history and checkpoint after which the same layout update shows different values with and without a restart |
| `GridOrder.DistinctHeadersAreSafe` | server/timing/result_grid.py:86-90 | headers that are all different keep every later layout update independent of dict order |
| `GridOrder.CheckpointThenTail` | server/timing/normalizer_writer.py:749-806 | restoring a checkpoint of any history and applying the rest, whose messages `SafeMessageExactly` lets through, shows the grid of the whole history |
| `GridOrder.ChangesCommuteWithLayout` | server/timing/result_grid.py:92-176 | cell changes then a layout update give exactly the grid of the layout update then the renumbered changes |
| `GridOrder.PermutationCommutes` | server/timing/result_grid.py:92-176 | the same for a pure permutation of different headers, with the renumbering spelled out |
| `GridReducer.ResultGrid.SetLayout` | server/timing/result_grid.py:70-84 | the object's new state is the specified one |
| `GridReducer.ResultGrid.ApplyLayoutUpdate` | server/timing/result_grid.py:92-130 | the loops over rows and cells compute the specified remap |
| `GridReducer.ResultGrid.RemapCells` | server/timing/result_grid.py:118-127 | one row's cells, remapped in dict order |
| `GridReducer.ResultGrid.ApplyChanges` | server/timing/result_grid.py:155-176 | the change loop, with its metadata branch and its bound of 200 |
| `GridReducer.ResultGrid.ApplySnapshot` | server/timing/result_grid.py:138-153 | layout, clearing, pending schema and cells as specified |
| `GridReducer.ResultGrid.RemoveRows` | server/timing/result_grid.py:178-183 | exactly the named rows go |
| `GridReducer.ResultGrid.Snapshot` | server/timing/result_grid.py:204-221 | the document describes the grid exactly |
| `GridReducer.ResultGrid.RestoreSnapshot` | server/timing/result_grid.py:223-286 | every field is replaced, or one of fifteen errors is reported and nothing changes |
| `IngestSafety.EveryCheckpointEqualsHistory` | server/timing/db.py:285-338 | over every run of messages that `SafeMessageExactly` lets through: any offered valid row, plus the decoded frames still stored above its anchor, gives what every decoded frame ever stored gives |
| `IngestSafety.WorkerEqualsHistory` | server/timing/ingest.py:150-240 | over every such run: the reducer in memory is that of every frame processed so far, after any crashes, restarts, retention and rebuilds |
| `IngestSafety.RestoreEqualsHistory` | server/timing/normalizer_writer.py:749-806 | the same from the invariant, up to any frame id |
| `IngestSafety.RestartRefusesExactly` | server/timing/normalizer_writer.py:775-786 | a restart refuses exactly when frames are gone and no offered row is valid |
| `IngestSafety.RetentionFloorHolds` | server/timing/retention.py:193-317 | over every run: every deleted frame is at or below the floor, whose checkpoint anchors a retained, processed frame strictly above it |
| `IngestSafety.PassRollsBackExactly` | server/timing/retention.py:266-278 | a pass is rolled back exactly when it deleted a frame and no valid checkpoint is left strictly above all it deleted |
| `IngestRetention.SweepDeletesExactly` | server/timing/retention.py:202-264 | a pass deletes exactly the planned frames that were deletable before it, whatever the order of the plan and whatever it deletes on the way |
| `IngestRetention.MarkCoversExactly` | server/timing/retention.py:272-317 | the floor's receive-time mark covers every frame a pass deleted exactly when the pass went beyond the old floor or deleted nothing received after the old mark; neither half of a floor falls |
| `IngestRetention.LateFrameEscapesTheMark` | server/timing/retention.py:287-296 | two concrete passes after which a deleted frame was received later than the mark |
| `IngestSafety.FreshIdsAreNew` | server/timing/ingest_store.py:304-354 | a new frame id was never used before, although the table does not forbid reuse |
| `IngestSafety.RebuildReplaysEverything` | server/timing/rebuild.py:65-78 | a rebuild that is let through still has every frame ever stored |
| `IngestSafety.StepKeepsInv` | server/timing/ingest.py:140-247 | the invariant behind the rows above, kept by each of the eleven steps |
| `IngestErrors.ErrorsAreCrashes` | server/timing/ingest.py:140-272 | over every run in which an error while a frame is processed is followed by a restart of the process: the reducer used for the next frame is that of everything done, in order, each frame once |
| `IngestErrors.RaisedFrameComesLast` | server/timing/ingest.py:147-169 | a concrete run in which a live frame raises once and the process goes on: in the end every frame is marked, and a cell shows what the earlier frame wrote, not the later one |
| `IngestErrors.RaisedFrameIsForgotten` | server/timing/db.py:285-338 | a concrete run in which a later frame has saved the reducer before: the next restart restores the newer anchor, and what the frame wrote is lost although it is marked |
| `IngestErrors.BackOnTop` | server/timing/normalizer_writer.py:749-814 | a frame that the reducer had finished and a later anchor knows is reduced again on top of the whole history |
| `IngestErrors.ComesBackExactly` | server/timing/result_grid.py:155-176 | a frame of cell changes that comes back so leaves the reducer as the history has it exactly when every cell it wrote still shows what it wrote in it last |
| `IngestStore.TimingDb.DecodeFrame` | server/timing/ingest_store.py:356-447 | decoding is done once: a decoded frame keeps its stored messages, a failed one gives none |
| `IngestStore.TimingDb.MarkProcessed` | server/timing/ingest_store.py:449-503 | marker and checkpoint commit together, once, for decoded frames only; the error cases change nothing |
| `IngestStore.TimingDb.PendingDecodedFrames` | server/timing/ingest_store.py:519-540 | exactly the decoded, unprocessed frames, oldest first |
| `IngestStore.TimingDb.NewestCompatible` | server/timing/retention.py:58-127 | the newest anchored row whose payload is valid, or none when there is none |
| `IngestStore.TimingDb.DeleteFrame` | server/timing/retention.py:203-264 | one guarded DELETE and the running maxima |
| `IngestStore.TimingDb.ApplyRetention` | server/timing/retention.py:193-317 | the whole pass: deletes in id order, then the floor, or everything rolled back |
| `BoundaryState.BoundaryRoundTrip` | server/timing/metric_engine.py:111-290 | a persisted event cursor decodes to the one held in memory exactly when it is well formed |
| `BoundaryState.BuildPointer` | server/timing/metric_engine.py:1271-1290 | every interval pointer the engine builds can be persisted |
| `BoundaryState.AcceptedIsWellFormed` | server/timing/metric_engine.py:158-290 | whatever the reader lets in is well formed, and writing it back loses nothing |
| `BoundaryState.NoEventExactly` | server/timing/metric_engine.py:2778-2831 | on any two cursors, whatever their class orders: no event means that nothing changed but possibly the class orders, when none is left |
| `BoundaryState.SilentExactlyWhenEqual` | server/timing/metric_engine.py:2729-2831 | of cursors the engine builds, with participants sorted by id and an order for each class that some participant is in: no event is announced exactly when nothing has changed |
| `MetricScopes.ForcedIsAnnounced` | server/timing/metric_engine.py:2834-2895 | where no event is announced, no chart point is forced |
| `MetricScopes.GapForcesSession` | server/timing/metric_engine.py:2858-2865 | a gap that opens or closes forces the session's chart point, and no other |
| `MetricScopes.ParticipantForcedExactly` | server/timing/metric_engine.py:2834-2895 | within a heat, a participant's chart is forced exactly by a change of that participant |
| `BoundaryState.RetryAnnouncesNothing` | server/timing/metric_engine.py:2778-2831 | a frame compared with its own cursor announces nothing |
| `MetricStore.Convergence` | server/timing/metric_store.py:1926-1938 | ranked offers in any order and repetition settle at the same row |
| `MetricStore.SettlesAtLatest` | server/timing/metric_store.py:2041-2099 | a row ends at an offered value that no offer is later than, by rank and then version |
| `MetricStore.EventsAppendOnce` | server/timing/stream_events.py:66-112 | appending keeps the outbox, adds no event key twice and leaves none out |
| `MetricRuns.WritesConverge` | server/timing/metric_store.py:2258-2311 | the same writes in any order and repetition leave the same current rows and runner state |
| `MetricRuns.TablesSettle` | server/timing/metric_store.py:2017-2325 | each current row, and the runner state, is the settlement of the offers made to it |
| `IngestGaps.ReconnectClosesExactly` | server/timing/ingest.py:200-272 | after lost connections or failed attempts, the next frame finds no open gap exactly when at most one of them had failed: each opens a row and only the last is closed |
| `IngestGaps.StuckStaysOpen` | server/timing/ingest_store.py:289-302 | over any number of frames, an open gap that the worker does not mean to close stays open, and is found open, until the worker is started again |
| `IngestGaps.SecondFailureStays` | server/timing/ingest.py:258-272 | a concrete lost connection and failed attempt, after which every frame finds the first gap open until the worker is started again |
| `IngestGaps.StepKeepsOneGap` | server/timing/ingest.py:131-290 | where no connection is lost, every step of the worker, its deaths and restarts keep at most one gap open, the one it means to close |
| `IngestGaps.OpenExactlyWhenReplayed` | server/timing/ingest.py:140-169 | a frame then finds no open gap exactly when it came in by the run that evaluates it |
| `IngestGaps.OpenAtIsNewest` | server/timing/metric_store.py:1290-1309 | the gap that a frame finds is the open one that started last, the newest row among equals |
| `IngestGaps.Recovered` | server/timing/ingest_store.py:126-177 | a new run takes over the gap that is open, and opens one only when the run before it died |
| `IngestGaps.GapTable.StartRun` | server/timing/ingest_store.py:96-183 | the gap rows after the start of a run, and the gap it is to close, as specified |
| `IngestGaps.GapTable.RecordGap` | server/timing/ingest_store.py:256-287 | one open row more |
| `IngestGaps.GapTable.CloseGap` | server/timing/ingest_store.py:289-302 | the row is closed if it is open, and nothing else changes |
| `MetricReplay.ExactlyOnce` | server/timing/metric_runner.py:77-176 | for any crashes and restarts, before or after the commit or before the frame is marked, whatever gap rows they leave, and an engine that may read every metric table and gap row: current rows, ticks, runner state and outbox are those of one write per frame, each frame's first, in order; and the next frame is compared with the cursor the last of them stored |
| `MetricReplay.RetryIsNoOp` | server/timing/metric_store.py:2017-2325 | in any run, a frame materialized again after its commit, with a gap open that was not or without, changes no current row, no tick, neither runner state nor outbox |
| `MetricReplay.OutboxHoldsEveryEvent` | server/timing/metric_store.py:2250-2325 | in any run, the outbox holds every event of every committed frame's first evaluation, each key once, and nothing else |
| `MetricRestart.RestartsGoUnheardExactly` | server/timing/metric_runner.py:77-319 | with any crashes and restarts, at every moment the stored event cursor and every announcement in the outbox are those of the run without them, exactly when every frame, at its first evaluation, finds the gap open that it would have found without them |
| `MetricRestart.UnheardWhenFresh` | server/timing/ingest_store.py:126-177 | where no connection is lost, this is exactly when no worker dies between storing a frame and committing its evaluation |
| `MetricRestart.CrashesLeaveNoTraceExactly` | server/timing/metric_runner.py:77-176 | with any crashes and restarts, at every moment every table, charts included, is that of the run without them, exactly when no first evaluation is changed by the gap rows it finds and no retry writes a chart point |
| `MetricRestart.GapsShow` | server/timing/metric_store.py:1290-1319 | a first evaluation is not changed by the same gap rows, and is changed whenever another gap is open |
| `MetricRestart.NoTraceWhenFresh` | server/timing/metric_store.py:857-898 | where no connection is lost, every table is that of the run without crashes as long as every frame is evaluated first by the run it came in by, no lap judged lies across a restart's gap, and no retry moves a chart |
| `MetricRetry.RetryIsNoOpExactly` | server/timing/metric_store.py:2017-2325 | a retry leaves every table as it is exactly when none of its points passes the guards of the charts as they are |
| `MetricRetry.RetryPointExactly` | server/timing/metric_store.py:2101-2193 | a frame's second point moves the chart exactly when the first was left out and the second is not shown and in turn; an unforced one exactly when the first was left out as already shown and the second has other values |
| `MetricRetry.RetryForcesOnlySession` | server/timing/metric_engine.py:2834-2895 | a retry forces no point while the gap is as at the frame's first evaluation; with another gap it forces the session's point and no other |
| `MetricCrash.CrashBeforeCommitIsHeard` | server/timing/ingest_store.py:126-177 | for every engine: a worker that dies after storing its first frame and before committing it leaves another event cursor, and other tables, than one that does not |
| `MetricCrash.RestartIsAnnounced` | server/timing/metric_runner.py:249-296 | a concrete run whose outbox ends with two announcements, of a source that goes and comes back, that the run without the crash does not make |
| `MetricCrash.CrashLeavesATrace` | server/timing/metric_store.py:2101-2193 | a concrete run in which the process dies after the commit and the retry forces an OFFLINE point that the run without the crash never has, while the current row stays |
| `MetricChart.ChartIsSparse` | server/timing/metric_store.py:2101-2193 | in order, of two neighbouring retained points the second is in a later 5 s bucket, or was forced by an event boundary, or has another version |
| `MetricChart.BoundaryTickIsShown` | server/timing/metric_store.py:2101-2193 | in order, after a boundary tick, or one in a later bucket than the newest point before its second, the newest point shows that tick |
| `MetricChart.TickIsShownExactly` | server/timing/metric_store.py:2101-2193 | on any chart, a tick is shown exactly when it was already, or is admitted and later than the point it would replace |
| `MetricChart.SameInstantKeepsTheNinth` | server/timing/metric_store.py:2170-2173 | frames 9 and 10 of one connection at one instant: the current row moves on, the chart does not |
| `MetricTables.MetricDb.PutPoint` | server/timing/metric_store.py:2101-2193 | the guards of one chart point compute the specified chart |
| `MetricTables.MetricDb.PutOne` | server/timing/metric_store.py:2017-2193 | one candidate updates its current row and chart as specified |
| `MetricTables.MetricDb.Append` | server/timing/stream_events.py:66-112 | the insert-or-ignore loop; a repeated key is an error |
| `MetricTables.MetricDb.PutTickAndState` | server/timing/metric_store.py:2194-2311 | tick and runner state by rank, and whether the state was written |
| `MetricTables.MetricDb.MaterializeSamples` | server/timing/metric_store.py:1941-2325 | the whole transaction; an error leaves every table as it was |
| `MetricTicks.CellsEqualFullScan` | server/timing/metric_store.py:1454-1643 | along any run, whatever becomes of flag periods, gaps and lap links, and whichever ticks the guard lets take the bounded path: the observed count, last and best sectors and best lap are those of a full scan |
| `MetricTicks.BoundedTailEqualsFullScanExactly` | server/timing/metric_store.py:1516-1606 | along any run, all stored values, the clean count too, are those of a full scan at every tick, exactly when at every tick on the bounded path as many old laps are clean on the new evidence as on the old, or more and all of those are in the tail |
| `MetricTicks.BoundedTailEqualsFullScan` | server/timing/metric_store.py:1089-1170 | they are while, between a bounded tick and the one before it, the periods that an old lap lies in, the gaps across it and its link stay what they were |
| `MetricTicks.TailCleanExactly` | server/timing/metric_store.py:1540-1554 | of one bounded tick, whatever was stored: it stores the full scan's clean count exactly when what was stored is the number of old laps clean now, or less and the tail has all of those |
| `MetricTicks.LateRedIsMissed` | server/timing/normalizer_writer.py:4206-4300 | a concrete run in which the provider's history names a red flag late: the guard passes, and the stored count keeps the lap that crossed it |
| `MetricEvidence.GuardKeepsVerdicts` | server/timing/metric_store.py:1089-1170 | where the guard passes, the verdict on an interval stays while the parts of the flag periods that lie in it are the same and a gap meets it or not as before, however the rows were inserted, cut or moved elsewhere |
| `MetricEvidence.LateRedPassesTheGuard` | server/timing/metric_store.py:1103-1119 | a concrete late red flag that the guard does not see and that changes a verdict |
| `MetricEvidence.CompletedStopIsSeen` | server/timing/metric_store.py:1152-1161 | a pit stop entered in a clean lap and completed later changes its verdict, and the guard sees it |
| `MetricTailProof.TailEqualsFull` | server/timing/metric_store.py:1516-1606 | of one tick over several frames, given that the kept STATE cells cover the new laps: from a full scan's values the bounded path stores a full scan's values |
| `MetricTailProof.SequencesRestored` | server/timing/metric_store.py:1532-1554 | each tail lap gets the capture number the full scan gives it |
| `MetricTailProof.StateTailExact` | server/timing/metric_store.py:722-757 | the kept STATE cells give a lap its state exactly when they reach back to its frame or there was none |
| `MetricTailProof.PaceAgreesOnTail` | server/timing/metrics.py:158-223 | with ten clean laps after the first of the tail, Pace 3/5/10, consistency and the P10-P90 range are those of the full scan |
| `MetricTailProof.WindowAgreesExactly` | server/timing/metrics.py:158-223 | the last ten clean laps of the tail are those of the full scan exactly when the tail has ten clean laps, or all there are; then every window agrees |
| `MetricTailProof.PaceAgreesOnWhole` | server/timing/metrics.py:158-223 | when the whole capture fits, all windows agree |
| `MetricTailProof.CrowdedStatesChangePace` | server/timing/metric_store.py:722-757 | a capture that fits in the tail, whose Pace3 is wrong because 73 later STATE cells pushed out the one in force |
| `MetricTailProof.PercentileIsNearestRank` | server/timing/metrics.py:70-77 | a percentile is one of the values, with at least its share of them at or below it |
| `MetricTailProof.MedianReachesHalf` | server/timing/metrics.py:60-67 | at least half of the values are at or below the median |
| `MetricTail.LoadLaps` | server/timing/metric_store.py:839-1006 | the one-pass loader, consuming each STATE cell once, computes the specified laps |
| `MetricTail.BestSectorsIsLeast` | server/timing/metric_engine.py:960-982 | the best sectors are the pointwise minimum of all confirmed values |
| `GreenCoverage.GreenCovers` | server/timing/metric_store.py:801-825 | the sweep accepts exactly a non-empty interval that is Green at every instant and that no other period overlaps, for periods of any length sorted by start |
| `GreenCoverage.SweepMeansOnlyGreen` | server/timing/metric_store.py:801-816 | with periods of positive length that means: nothing but Green at any instant |
| `GreenCoverage.OverlapIsSharedInstant` | server/timing/metric_store.py:556-564 | the overlap test is a shared instant exactly for periods of positive length |
| `GreenCoverage.ZeroLengthPeriodRejects` | server/timing/metric_store.py:801-816 | a concrete lap that is Green at every instant and rejected for a period of no length |
| `CanonicalLaps.EveryChainHolds` | server/timing/canonical_laps.py:372-549 | after any passings, with any facts arriving in between: boundaries numbered 0..n in strictly increasing provider time, lap i from i-1 to i, lap numbers known exactly after a heat start, three sector durations adding up to the lap |
| `CanonicalLaps.DurationsTelescope` | server/timing/canonical_laps.py:465-512 | durations add up to the time from the first boundary to the last |
| `CanonicalRebuild.RebuildTellsThePassings` | server/timing/canonical_laps.py:776-885 | in a rebuilt heat each car's boundaries are exactly its finishes after the first one, which is the corroborated green flag or the first time at the line; each lap holds exactly the passings of its time, its sectors end at the first crossings, and it is a pit lap exactly when one of them was in the pit |
| `CanonicalRebuild.EveryPassingInOneLap` | server/timing/canonical_laps.py:269-289 | every passing between the first and the last boundary is in one lap and in no other |
| `CanonicalLive.LiveIsRebuild` | server/timing/canonical_laps.py:372-549 | recording each passing with the facts stored by then gives the chains of the rebuild, when the track length is settled, no passing of the same car and instant is stored later, and for a car's first boundary the green flag is known and no closer start signal is still to come |
| `CanonicalLive.LapIsFinalExactly` | server/timing/canonical_laps.py:456-549 | with the track length settled, a lap is what the rebuild makes of it exactly when no passing of its last instant is stored later |
| `CanonicalLive.LateSectorIsMissed` | server/timing/canonical_laps.py:292-369 | concrete passings for which the recorded lap lacks a sector that the rebuild finds |
| `CanonicalRebuild.TrackLengthIsLargest` | server/timing/canonical_laps.py:54-63 | the track length is the longest positive distance any passing stopped at |
| `CanonicalRebuild.SpacedHeatIsRebuilt` | server/timing/canonical_laps.py:776-885 | a rebuild never fails when the different times of a car are a millisecond apart |
| `CanonicalSpacing.RebuildSucceedsExactly` | server/timing/canonical_laps.py:776-885 | a rebuild succeeds exactly when, between any two neighbouring boundary times of a car, the lap and every sector measured by its first crossings is at least a millisecond long |
| `CanonicalLaps.StartSignalIsClosest` | server/timing/canonical_laps.py:78-111 | the heat start is corroborated by a qualifying passing than which none is closer to the green flag |
| `CanonicalMatch.RebuildLinks` | server/timing/canonical_laps.py:776-885 | after a rebuild the links are a partial injection: same car, equal duration, at most five seconds; a cell is linked exactly when one fitting lap was free, never while two were; linked rows are confirmed and the others keep their classification |
| `CanonicalMatch.RebuildIsIdempotent` | server/timing/canonical_laps.py:776-885 | rebuilding twice leaves what rebuilding once leaves |
| `CanonicalMatch.MatchLastCell` | server/timing/canonical_laps.py:552-594 | the search returns the one pending lap that fits, if there is exactly one |
| `CanonicalStore.CanonicalDb.CollectPassings` | server/timing/canonical_laps.py:269-289 | the passings of one lap with their roles |
| `CanonicalStore.CanonicalDb.BuildLap` | server/timing/canonical_laps.py:456-549 | the lap row of a new finish |
| `CanonicalStore.CanonicalDb.RecordOn` | server/timing/canonical_laps.py:372-549 | the branches of one recorded passing |
| `CanonicalStore.CanonicalDb.RecordTrackerPassing` | server/timing/canonical_laps.py:372-549 | the table after a passing; a failed constraint changes nothing |
| `CanonicalStore.CanonicalDb.RebuildCanonicalHeat` | server/timing/canonical_laps.py:776-885 | both loops of the rebuild compute the specified heat |
| `RaceControl.BoardRefinesCollection` | server/timing/race_control_store.py:48-187 | over any run of distinct source keys: the active ids are those of the provider's collection, and the board has every field the collection shows |
| `RaceControl.StoredIsLastGiven` | server/timing/race_control_store.py:313-366 | each stored field is the last non-null value given for it, in application order |
| `RaceControl.BoardRefinesWithRepeats` | server/timing/race_control_store.py:190-245 | the same with earlier invocations projected again at any time |
| `RaceControl.ReprojectionChangesNothing` | server/timing/race_control_store.py:190-245 | projecting an earlier invocation again changes neither table |
| `RaceControl.LedgerIsKept` | server/timing/race_control_store.py:190-245 | a ledger row, once written, is never changed |
| `RaceControl.IncompleteSnapshotKeeps` | server/timing/race_control_store.py:98-107 | an incomplete snapshot removes nothing |
| `RaceControl.StaleExactly` | server/timing/race_control_store.py:313-366 | a visible message shows exactly the provider's fields when, and only when, every field given for it anywhere in the run has been given again since it last appeared, that is, since the last deletion, clearing or complete snapshot |
| `RaceControl.ShownIsSinceAppearance` | server/timing/race_control_store.py:48-187 | what the provider shows of a message is what has been given since that appearance |
| `RaceControl.ReturningMessageIsStale` | server/timing/race_control_store.py:313-366 | a deleted and re-created message still shows its old text |
| `RaceControl.RaceControlTables.ProjectScreenMessage` | server/timing/race_control_store.py:48-187 | the two tables after one invocation |
| `RaceControl.RaceControlTables.ProjectSnapshot` | server/timing/race_control_store.py:65-112 | a snapshot, with its counters and its reconciliation |
| `RaceControl.RaceControlTables.InsertAndUpsert` | server/timing/race_control_store.py:248-366 | a patch reaches the current table only with a new ledger row |
| `RaceControl.RaceControlTables.MarkRemoved` | server/timing/race_control_store.py:369-418 | inactivation of one id or of all |
| `ScreenMessages.ParseSnapshot` | server/timing/screen_messages.py:121-156 | the loop from the last item to the first gives the specified patches and completeness |
| `ScreenMessages.SnapshotOrder` | server/timing/screen_messages.py:136-144 | patches come in application order, each from the item at its ordinal |
| `ScreenMessages.SnapshotHasEvery` | server/timing/screen_messages.py:136-147 | no well-formed item is left out |
| `ArchiveRepair.JournalNamesStaged` | server/jobs/repair_archive.py:253-305 | with any number of crashes anywhere: a journal in the store names only staged objects, and the staged video is the repair of the originals |
| `ArchiveRepair.NothingLost` | server/jobs/repair_archive.py:315-343 | no part is lost before the target holds the repair, and the target only ever holds its original or the repair |
| `ArchiveRepair.BuiltOnlyFromOriginals` | server/jobs/repair_archive.py:356-374 | a repair is only ever built from all the untouched originals, never from an earlier result with leftovers |
| `ArchiveRepair.FinishedIsDone` | server/jobs/repair_archive.py:338-343 | once a finished commit's journal is gone the repair is complete |
| `ArchiveRepair.SettledStaysSettled` | server/jobs/repair_archive.py:356-374 | a finished repair is kept by every operation, every new process and every crash |
| `ArchiveRepair.FinishedForEver` | server/jobs/repair_archive.py:338-374 | in any run: once a finished commit has taken its journal away the repair is complete at every later moment, whatever processes and crashes follow |
| `ArchiveRepair.CommitCompletes` | server/jobs/fix_gaps.py:337-361 | resumed from its journal, with or without a thumbnail and an annotation, a commit that runs to its end succeeds, completes the repair and takes the journal away |
| `ArchiveCleanup.CommitLeavesNothing` | server/jobs/repair_archive.py:315-343 | a commit that runs to its end leaves nothing of the other sources, no old rendition of the target, nothing staged and no journal |
| `ArchiveCleanup.OthersUntouched` | server/jobs/repair_archive.py:253-374 | with any number of crashes anywhere, no object of any other recording changes |
| `ArchiveCleanup.JoinedKeepsEachPart` | server/jobs/repair_archive.py:253-305 | each part is in the merge whole, right after the parts before it |
| `ArchiveRepair.StepKeepsInv` | server/jobs/repair_archive.py:253-374 | the invariant behind the rows above, kept by every operation and every crash |
| `Timeline.FindRegions` | server/jobs/fix_gaps.py:176-188 | the loop returns the bounds of the specified regions |
| `Timeline.RegionsAreMaximal` | server/jobs/fix_gaps.py:176-188 | the regions are the packets, in order, cut exactly where the gap is longer than the limit |
| `Timeline.BrokenExactly` | server/jobs/fix_gaps.py:191-206 | a recording counts as broken exactly when its first packet is late or some gap is longer than the limit |
| `Timeline.CutIsTheRegion` | server/jobs/fix_gaps.py:249-262 | on a rising timeline a cut by a region's bounds, slack included, keeps exactly its packets |
| `Timeline.ClosedKeepsPackets` | server/jobs/fix_gaps.py:264-283 | joined end to end, the regions lose no packet and keep their order |
| `Timeline.ClosedIsWhole` | server/jobs/fix_gaps.py:289-293 | the joined recording is one region from the start, so it is never taken for a broken one |
| `ArchiveRepair.Store.CommitState` | server/jobs/repair_archive.py:315-343 | the publishing, removing and cleaning loops execute the specified operations in order; a missing staged object stops them, and what was done before it stays |
| `ArchiveRepair.Store.PublishStaged` | server/jobs/repair_archive.py:319-324 | video, thumbnail and annotation in this order, up to the first that is missing |
| `ArchiveRepair.ReachedIsBeforeFailure` | server/jobs/repair_archive.py:308-324 | where operations stop, the bucket is what those before the first failing one leave |
| `ArchiveRepair.Store.RemoveSources` | server/jobs/repair_archive.py:326-332 | each other source and its three prefixes |
| `ArchiveRepair.Store.DeletePrefix` | server/jobs/repair_archive.py:125-133 | every object under the prefix goes, and no other |
| `ArchiveRepair.Store.CopyStaged` | server/jobs/repair_archive.py:308-312 | a missing staged object stops the copy and changes nothing |
| `ArchiveRegroup.RegroupsExactly` | server/jobs/repair_archive.py:92-106 | after a crash that has removed some parts of a merge, the published target and the parts left group as one session exactly when the next part is within the limit of the target, which lasts only as long as its parts together; else the target is a group of its own |
| `ArchiveRegroup.ShortGapsRegroup` | server/jobs/repair_archive.py:92-106 | before anything is removed, and while all gaps together are within the limit, they always do |
| `ArchiveRegroup.ThirdPartGroupsAlone` | server/jobs/repair_archive.py:92-106 | three concrete parts of which, after a crash, the third groups alone |
| `ArchiveRegroup.LeftOverIsAnnotated` | server/jobs/repair_archive.py:346-372 | the run that resumes the target then leaves of that part an annotation and nothing else |
| `SessionGroups.GroupsAreChains` | server/jobs/session_merger.py:121-130 | on start-sorted parts, two share a group exactly when a chain of gaps no longer than the limit links them |
| `SessionGroups.SameGroupsWithinOneDate` | server/jobs/repair_archive.py:92-105 | within one date the running maximum gives the same groups |
| `SessionGroups.DatesGroupApart` | server/jobs/repair_archive.py:92-105 | a new date starts over |
| `SessionGroups.GroupsKeepParts` | server/jobs/session_merger.py:121-130 | the groups are the parts, in order, cut into runs |
| `SessionGroups.GroupSessions` | server/jobs/session_merger.py:121-130 | the loop that searches the whole group computes the specified groups |
| `SessionGroups.GroupByGap` | server/jobs/repair_archive.py:92-105 | and so does the loop with a running maximum and dates |

## Left out

- ArchiveRepair.CommitCompletes: the catalogue and the transcode queue are steps without content, because they hold no part of the recording.
- Timeline.ClosedKeepsPackets: one video track with times in whole milliseconds; a joined part is as long as its packets and the slack of the cut, and encoding and container lengths are not part of this model.
- IngestSafety.RetentionFloorHolds: one session at a time; a pass over several sessions also rolls back the others when one fails.
- IngestSafety.EveryCheckpointEqualsHistory: the reducer is the result grid and the heat start; heat fields, statistics, clock calibration and schema baselines are not part of this model. Frames whose processing raises are the subject of `IngestErrors`.
- MetricReplay.ExactlyOnce: playback snapshots are left out, because they are written beside the runner state under the same condition; a live frame whose processing fails, and which waits for the next start, is not part of the runs.
- IngestErrors.ErrorsAreCrashes: one session without retention, and a saved reducer comes back as it was; up to dict order this is `RestoreEqualsHistory`.
- IngestErrors.ComesBackExactly: frames of cell changes; a frame with a layout raises the generation again and so never comes back unseen.
- MetricRestart.NoTraceWhenFresh: one direction, because a lap that a gap meets may be unclean for other reasons; `CrashesLeaveNoTraceExactly` is exact.
- MetricTicks.BoundedTailEqualsFullScan: one direction, because laps that change their verdicts may cancel out in the count; `BoundedTailEqualsFullScanExactly` is exact.
- ArchiveRegroup.RegroupsExactly: parts of one date, one after another; the annotator may also fail on a part that is gone.
- MetricTailProof.PaceAgreesOnTail: one direction, because two different sets of laps can have the same medians; `WindowAgreesExactly` is exact for the laps themselves, `StateTailExact` for the kept states.
- MetricTicks.BoundedTailEqualsFullScanExactly: stint prefixes, slow-lap lists and laps from explicit LAPS columns are not part of this model.
- RaceControl.BoardRefinesCollection: provenance columns, receive times and removal evidence are left out; they never feed back into the board.
- ScreenMessages.ParseSnapshot: a blank id is one of spaces, tabs and line ends; other Unicode blanks are not modelled.
- CanonicalRebuild.SpacedHeatIsRebuilt: a condition on the times alone, sufficient only; `RebuildSucceedsExactly` is the exact one.
- CanonicalLive.LiveIsRebuild: passings come in by provider time; the conditions are sufficient, and `LapIsFinalExactly` is exact for one lap.
- CanonicalMatch.RebuildLinks: sector source cells and row timestamps are left out.
- StreamRace.SafeExactlyWhenNoGapFollows: for streams that nothing they hold makes start over; where a full state is on its way it may heal the loss.
- StreamGapFree.GapFreeDelivery: event text, heartbeats and quality payloads are left out; quality items carry no id and pass through.
- `plan_retention`'s selection: the pass is proved for any plan, stale or not.
- Lifecycle and timing of the asyncio tasks, HTTP routes other than the stream, SQLite, JSON text, gzip and hashes.
- Incident reconciliation, alerts and tactical text values.
- Object-store retries and failures: a failed operation ends the process like a crash.
