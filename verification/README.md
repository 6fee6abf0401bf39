# ProxyLens pipeline model

ProxyLens turns a proxy controller's cumulative traffic counters into an append-only event journal and
maintains derived accounting state over that journal while a collector keeps appending. This project models
that pipeline in Dafny and proves what it promises over all runs.

| part | files |
|---|---|
| vocabulary | `types.dfy` |
| collector state machine | `attribution.dfy`, `tombstones.dfy`, `eventlog.dfy`, `decisions.dfy`, `engine.dfy`, `enginesafety.dfy`, `engineruns.dfy`, `enginelog.dfy`, `sparse.dfy`, `intervals.dfy`, `connlaws.dfy`, `framelaws.dfy`, `frames.dfy`, `enginestate.dfy` |
| journal, projection, rebuild | `projector.dfy`, `projectionlaws.dfy`, `tablelaws.dfy`, `journal.dfy`, `sessions.dfy`, `sink.dfy`, `pipeline.dfy`, `mirrors.dfy`, `histories.dfy` |
| relay reconciliation | `matching.dfy`, `classify.dfy` |
| incremental accounting | `connstate.dfy`, `evidence.dfy`, `closure.dfy`, `derived.dfy`, `accounting.dfy`, `prepare.dfy`, `store.dfy`, `seed.dfy`, `protocol.dfy`, `reconciled.dfy`, `deduction.dfy`, `cut.dfy` |
| hourly index, allocation, coverage | `allocator.dfy`, `hourly.dfy`, `hourlyindex.dfy`, `plan.dfy`, `correction.dfy`, `windows.dfy`, `statement.dfy`, `leak.dfy`, `coverage.dfy` |
| everything together | `deployment.dfy` |

Each part has a specification on values (functions and predicates), the source's loops and mutable objects as
methods and classes proved against it, and theorems about the specification. The state machine is specified
by `Engine.Process`; its class is `StateEngine.StateEngine`. The yardsticks are stated
apart from the specification: folds over the event list in `eventlog.dfy`, `projectionlaws.dfy`, `tablelaws.dfy` and
`evidence.dfy`, laws in the controller's own counters in `connlaws.dfy`, plain arithmetic on hops, windows and bytes
for the pairing rules (`Classify.EdgeIff`, `Attribution.FrameEdgeIff`), and sums over the journal's own events for
what the usage queries answer (`statement.dfy`).

## Hypotheses

- Connection IDs are distinct within a frame and controller counters are not negative.
- Event IDs are injective in session, position, type, connection and delta.
- Only a running session emits or ends. Frames of a group are observed in time order wherever accounting reads
  the journal; the engine's own theorems do not need it. Theorems about accounting alone take a journal that meets
  these assumptions; `EngineHistories.EngineHistoriesAreReliable` derives them, and the next two, for every store
  history whose sessions start at increasing times and are fed by engines with strictly increasing frame times, and
  `Deployment.DeploymentIsAccounted` states the main results for such histories without them.
- The cut is two reads: the boundary capture, then one snapshot for all probes. After the snapshot, a session it
  shows as stopped writes nothing more (`Cut.HistoriesEvolve`).
- Theorems about full classes over runs take connection evidence to be dated after the zero instant, which the
  cutoff computation uses for "not set".
- The two table reads of a chunk's preparation may see different generations; nothing is assumed about them.

## Where the code and its description differ

- A frame is documented as complete when an event of a later session exists (`accounting_v2.go:1168`). The query's
  second disjunct asks for a sequence above the boundary and at most the boundary, so it never holds
  (`Cut.HasNewerIff`).
- The closure's comment calls the cutoff filter a sound superset (`accounting_v2.go:866-869`). It is one for
  partners of the chunk's own connections; a left-out terminal connection can still decide a retained one
  (`Closure.BorderEdgeChangesClass`), and `Closure.IncrementalEqualsFullIff` gives the exact condition.
- The allocator is documented as conserving totals. Negative totals are clamped away, so a correction that takes
  bytes back from an interval row leaves its estimated hourly bytes behind for good. The index is exact when it is
  seeded (`Seeding.Seed.OpenStore`) and stays exact across a commit if and only if no change takes back the bytes
  of an interval row (`GenerationStore.Store.CommitChunk`, over runs `Deployment.IndexAnswersIff`);
  `Leak.LeakOvercounts` is a concrete hour that is overcounted.
- A row with an empty interval is counted in its hour bucket and skipped by the direct scan
  (`Allocator.EmptyIntervalOnlyInIndex`); `Windows.HourlyEqualsScanIff` combines both conditions. With strictly
  increasing frame times such a row cannot arise (`Deployment.ClockedRowsAreSpread`).
- A seed captures the journal's last sequence as its boundary wherever it stands. If a frame is in flight and
  goes on, no seed chunk ever reaches that boundary (`Cut.SplitBoundaryIsNeverReached`).
- A correction skips rows whose bytes do not change, class column included. Agreement is on bytes and on the stored
  class of the connection (`Derived.Books`).
- A Bootstrap of a connection that disappeared earlier in the epoch neither consumes its tombstone nor reopens its
  row, so live IDs and tombstones may overlap, and such a row stays ended (`ProjectionLaws.AllRowLaws`); this is the only
  way for the row of a live connection not to show its state (`RowMirrors.RowsShowLiveState`).
- The one-sided branches of both traffic rules, for a side of at most 500 bytes, accept nothing that the general
  branch does not (`Classify.TrafficRule`, `Attribution.PairRule`).
- An empty effective coverage window reports one covered millisecond (`Coverage.PartsAddUp`).

## Model

| member | source | states |
|---|---|---|
| Classify.ClassifyConnectionGroup | collector/pkg/storage/accounting_classify.go:28-256 | the loops return, for every connection, its class in the group's match graph, and exactly one relation record per candidate that names a partner only when it is the only one |
| Classify.GroupOfIgnoresOrder | collector/pkg/storage/accounting.go:328-353 | the order in which a group is gathered from a map has no effect on the match graph, hence on the classes |
| Classify.GroupDeductionBound | collector/pkg/storage/accounting_classify.go:35-253 | 4 times all bytes deducted as confirmed duplicates in a group is at most 5 times the bytes kept on its logical connections, per direction |
| Classify.EdgeIff | collector/pkg/storage/accounting_classify.go:28-171 | the edges of a group, said of its connections: session and epoch, process and rule, attribution, hops, observation windows, and counters within a twentieth, or within 2000 bytes and a fifth, in both directions |
| Classify.ConfirmedBytesAgree | collector/pkg/storage/accounting_classify.go:95-253 | the two sides of every confirmed pair agree to a twentieth in a direction of 40000 bytes or more, and to less than 2000 bytes and a fifth below |
| Classify.AgreeingBytesPair | collector/pkg/storage/accounting_classify.go:95-171 | a candidate and a logical connection of one group with matching hops, meeting windows and bytes within a twentieth always pair |
| Matching.ClassIff | collector/pkg/storage/accounting_classify.go:173-253 | a candidate is a confirmed duplicate exactly when it has one partner that has no other suitor, unpaired exactly when it has none |
| Reconciled.FullClassesIff | collector/pkg/storage/accounting.go:328-353 | the full reconciliation of every journal prefix, said of the journal: a connection is a confirmed duplicate exactly when it relays for one connection only and is the only one that does |
| Reconciled.StagesAgree | collector/pkg/attribution/attribution.go:26-41 | the frame deduplicator and the group reconciliation give a connection the same role |
| Matching.CollectMatches | collector/pkg/storage/accounting_classify.go:62-171 | the nested append loops list every candidate's partners and every logical connection's suitors, each once |
| Matching.PartialClassExactIff | collector/pkg/storage/accounting_v2.go:863-985 | classifying a part of a group gives a member its class in the whole group if and only if the members left out cannot decide it |
| Preparation.GroupsClassifyApart | collector/pkg/storage/accounting_v2.go:942-961 | classifying (session, epoch) groups one by one gives the classes of the full match graph |
| Attribution.PerformFrameRelayDeduplication | collector/pkg/attribution/attribution.go:122-182 | the frame loops confirm exactly the candidates with one matching application connection that has no other suitor |
| Attribution.FrameEdgeIff | collector/pkg/attribution/attribution.go:43-120 | the edges of a frame, said of its connections: names, hops, and frame traffic less than 2000 bytes or less than a twentieth of the application's apart in both directions |
| Attribution.FrameConfirmationsAreOneToOne | collector/pkg/attribution/attribution.go:150-182 | two confirmed candidates of a frame never share a partner, and a partner is never confirmed |
| Attribution.AttributionIff | collector/pkg/attribution/attribution.go:26-41 | a connection is an application exactly when process and rule are known, and a relay candidate exactly when it has neither and some application connection could be paired with it |
| Attribution.RouteIff | collector/pkg/attribution/attribution.go:11-24 | a route is direct or rejected exactly when the first hop spells that in any case with any white space around it, and unknown without hops |
| ConnState.ChunkingDoesNotMatter | collector/pkg/storage/accounting_v2.go:1256-1372 | for every partition of a connection's time-ordered events into chunks, aggregating and upserting chunk by chunk stores the single-pass row |
| ConnState.UpsertExtendsLegacy | collector/pkg/storage/accounting_v2.go:1342-1372 | one upsert onto the row of the earlier events gives the single-pass row of all of them |
| ConnState.ApplyToPredictsUpsert | collector/pkg/storage/accounting_v2.go:1258-1294 | the in-memory merge used for classification equals what the upsert will store |
| ConnState.LegacyBounds | collector/pkg/storage/accounting.go:244-323 | the single pass keeps the first and the latest event time and a disappearance between them |
| ConnState.FactsAreLatest | collector/pkg/storage/accounting.go:286-306 | every fact of the single pass is that of the latest event that states one; an empty value erases none |
| ConnState.DisappearanceIsLatest | collector/pkg/storage/accounting.go:244-323 | a connection has disappeared exactly when the latest event that opened or ended an observation is a disappearance, and then at its time |
| ConnState.MonitoredIsDeltaSum | collector/pkg/storage/accounting.go:244-323 | the monitored total is the sum of all deltas |
| Evidence.TableFactsAreLatest | collector/pkg/storage/accounting_v2.go:1318-1341 | every fact of a stored row is that of the latest event of its connection in the journal that states one |
| Evidence.StreamJournalRange | collector/pkg/storage/accounting_v2.go:1393-1447 | streaming a range yields each connection's aggregate and the range's traffic events with their sequence |
| Evidence.ApplyUpdatesExtendsTable | collector/pkg/storage/accounting_v2.go:1576-1612 | storing a range's aggregates turns the table of a journal prefix into the table of the longer prefix |
| Evidence.SummaryWithinFrameTime | collector/pkg/storage/accounting_v2.go:1800-1829 | every stored summary lies within its group's authoritative frame time |
| Reconciled.WindowSays | collector/pkg/storage/accounting_v2.go:1800-1829 | a connection counts as observed from its first event to its disappearance, or to the group's latest frame if that was not its last word |
| Reconciled.InputSays | collector/pkg/storage/accounting_v2.go:1625-1662 | the classification input states the latest facts of the journal and the sum of the connection's deltas |
| Frames.FrameTimeIsLatest | collector/pkg/storage/accounting_v2.go:1816-1829 | after every processed frame, even an empty one, the authoritative time of its group is the frame's |
| Closure.IncrementalEqualsFull | collector/pkg/storage/accounting_v2.go:847-985 | if no match edge crosses the closure border, every stored class, inside or outside the closure, equals the full reconciliation's at the new boundary |
| Closure.IncrementalEqualsFullIff | collector/pkg/storage/accounting_v2.go:847-985 | for every chunk: stored classes equal the full reconciliation's if and only if no candidate's decision depends on the closure border |
| Closure.BorderEdgeChangesClass | collector/pkg/storage/accounting_v2.go:854-871 | two concrete journals, frame-ordered: after the chunk the stored classes confirm both relay candidates against one application connection, while the full reconciliation finds both ambiguous |
| Closure.QuietRangeKeepsClasses | collector/pkg/storage/accounting_v2.go:1800-1829 | advancing the frame time without connection evidence changes no class of the full reconciliation |
| Closure.LeftOutEdgesStay | collector/pkg/storage/accounting_v2.go:1532-1557 | no match edge of a connection left out of the closure appears or disappears |
| Reconciled.LeftOutIff | collector/pkg/storage/accounting_v2.go:1532-1557 | a connection is left out of the closure exactly when its disappearance is its last word and lies before the cutoff |
| Preparation.PrepareIncrementalChunk | collector/pkg/storage/accounting_v2.go:834-1000 | the preparation loops compute the specified chunk from their two table reads, list each class change once with its old class, and plan the range's rows |
| Preparation.DirtyClosureCutoff | collector/pkg/storage/accounting_v2.go:1005-1022 | the cutoff is the earliest first observation of the chunk's connections, for instants after the zero time that doubles as unset |
| Accounting.CommitKeepsGenOk | collector/pkg/storage/accounting_v2.go:752-804 | committing a chunk prepared from the same generation publishes exactly the longer journal, and neither transaction error can fire |
| Accounting.CommitStoresClosureClasses | collector/pkg/storage/accounting_v2.go:771-780 | a commit stores the classes decided inside the dirty closure and keeps all others |
| Accounting.CommitKeepsFullClassesIff | collector/pkg/storage/accounting_v2.go:834-985 | classes equal to the full reconciliation stay equal to it across a commit if and only if the chunk is harmless: no candidate's decision depends on the closure border |
| Accounting.ClearBorderIsHarmless | collector/pkg/storage/accounting_v2.go:847-985 | a chunk no match edge crosses the closure border of is harmless, which can be checked without deciding any candidate |
| Accounting.RowsAreExactlyTheTraffic | collector/pkg/storage/accounting_v2.go:2262-2326 | derived rows correspond one-to-one, in order, to the nonzero New and Delta events at or below the boundary |
| Accounting.LedgerInvariant | collector/pkg/storage/accounting_v2.go:1978-2033 | each row accounts 0 exactly when its connection's stored class is confirmed duplicate and its raw bytes otherwise; totals are the row sums and accounted never exceeds raw |
| Derived.CorrectionKeepsLedger | collector/pkg/storage/accounting_v2.go:1978-2033 | correcting the changed connections' rows keeps every row accounted by the stored class, although unchanged rows keep their old class column |
| Derived.AccountedWithinRaw | collector/pkg/storage/accounting_v2.go:2464-2471 | accounted totals are non-negative and at most the raw totals, so the publish check passes |
| Protocol.AlwaysExactlyOnce | collector/pkg/storage/accounting_v2.go:706-827 | under every interleaving of appends with any number of workers reading, committing, skipping and aborting, the rows are exactly the published traffic, once each |
| Protocol.BoundaryNeverDecreases | collector/pkg/storage/accounting_v2.go:752-769 | the published boundary never decreases, and while it stands still the generation does not change |
| Protocol.CommittedRangesAreDisjoint | collector/pkg/storage/accounting_v2.go:752-769 | two commits of one run never cover the same journal range |
| Protocol.NeverRefused | collector/pkg/storage/accounting_v2.go:752-804 | no reachable commit meets the zero-rows or the accounting invariant error |
| Protocol.AlwaysFullClassesIff | collector/pkg/storage/accounting_v2.go:706-827 | over every run that starts fully classified, the stored classes equal the full reconciliation's in every world if and only if every commit so far was harmless |
| Protocol.PublishedNeverSplitsFrame | collector/pkg/storage/accounting_v2.go:706-719 | under every interleaving with the growing journal, a boundary published in any world of a run has all connection events of every frame on one side in every later world |
| Deduction.AlwaysDeductionBound | collector/pkg/storage/accounting_v2.go:1929-2033 | in every world of a run with harmless commits, 4 times the bytes a (session, epoch) group deducts is at most 5 times the bytes accounted on its unique connections, per direction |
| Deduction.GenerationDeductionBound | collector/pkg/storage/accounting_v2.go:2262-2326 | the same for one published generation that carries the full reconciliation's classes |
| Deduction.RowsCarryMonitored | collector/pkg/storage/accounting_v2.go:1296-1372 | the rows of a connection carry exactly the bytes its connection summary says were monitored |
| Deployment.DeploymentsRun | collector/pkg/storage/accounting_v2.go:706-827 | worlds read off any store history of engine-fed sessions form a run of the protocol over journals that meet every assumption of accounting, cut and index |
| Deployment.DeploymentIsAccounted | collector/pkg/storage/accounting_v2.go:706-827 | at every moment of such a deployment: rows are exactly the published traffic, every boundary published so far is frame-aligned, classes have always been the full reconciliation's if and only if every commit was harmless, and the hourly index answers for the direct scan if and only if every commit passed the guard |
| Deployment.DeploymentDeductionBound | collector/pkg/storage/accounting_v2.go:1929-2033 | in such a deployment with harmless commits no group loses more than 5/4 of what its unique connections account |
| Deployment.StaleIsWhatWasTakenBack | collector/pkg/storage/accounting_v2.go:1986-2030 | in every world of a run from an opened seed the index is in step with the rows, and each cell's stale bytes are exactly the sum of what the commits so far took back |
| Deployment.IndexAnswersIff | collector/pkg/storage/intelligence_temporal.go:479-557 | over every run from an opened seed: every aligned window answers what the direct scan answers if and only if every commit so far passed the guard and no row with an empty interval carries bytes |
| Deployment.ClockedRowsAreSpread | collector/pkg/storage/accounting_v2.go:2262-2326 | when frame times strictly increase no derived row has an empty interval |
| GenerationStore.Store.CommitChunk | collector/pkg/storage/accounting_v2.go:752-804 | the writer transaction, step by step, changes the tables to the specified generation with the hourly index following it, or skips unchanged when the boundary moved; estimated cells equal the rows' sums afterwards if and only if they did before and no change takes back the bytes of a spread row |
| GenerationStore.ApplyClassCorrections | collector/pkg/storage/accounting_v2.go:1929-1940 | correcting connections in turn equals correcting all rows by the change set, with the exact byte correction, the index kept in step, and stale bytes grown by exactly what the set takes back |
| Seeding.Seed.ActivateSeedGeneration | collector/pkg/storage/accounting_v2.go:552-616 | after seeding in any chunking, activation passes its checks and publishes a generation for exactly the journal up to the seed boundary, with the full reconciliation's classes |
| Seeding.Seed.OpenStore | collector/pkg/storage/accounting_v2.go:552-616 | the activated seed is the store incremental accounting starts from: for exactly the journal up to the boundary, fully classified, with an index whose estimated cells equal the rows' sums |
| Seeding.Seed.ClassifySeedGeneration | collector/pkg/storage/accounting_v2.go:468-502 | classifying the seeded summaries group by group freezes exactly the full reconciliation's classes at the seed boundary |
| Seeding.Seed.SeedMaterializeChunk | collector/pkg/storage/accounting_v2.go:504-547 | materialising a range extends rows and hourly index under the frozen classes |
| Seeding.Seed.SeedConnStateChunk | collector/pkg/storage/accounting_v2.go:430-466 | seeding a range extends the connection table to the single pass over the longer prefix |
| Hourly.DimsAreDistinct | collector/pkg/storage/accounting_classify.go:324-351 | a row projects onto a dimension exactly when it carries its name, never twice |
| Hourly.PostSumIsAllocSum | collector/pkg/storage/accounting_v2.go:2300-2321 | each allocation reaches each projected dimension exactly once |
| Hourly.CorrectionShare | collector/pkg/storage/accounting_v2.go:1986-2030 | posting a correction's difference moves exact cells exactly and never lets estimated cells fall below the rows |
| Hourly.RemovalIsExactIff | collector/pkg/storage/accounting_v2.go:2016-2028 | taking a row's bytes back leaves an estimated cell exact if and only if the row is not spread over an interval or had no share in it |
| Hourly.CorrectionLeaves | collector/pkg/storage/accounting_v2.go:1986-2030 | a correction leaves in an estimated cell exactly the old share of a spread row that now accounts nothing, and nothing otherwise |
| Correction.CorrectionStale | collector/pkg/storage/accounting_v2.go:1986-2030 | correcting one row leaves behind in every estimated cell exactly that row's old share when it is a spread row whose bytes are taken back, and nothing otherwise |
| Correction.StaleDecides | collector/pkg/storage/accounting_v2.go:1929-2033 | stale bytes never go away: after a set of class changes the estimated cells equal the rows' sums if and only if they did before and no change takes back the bytes of a spread row |
| Correction.LeakFreeIff | collector/pkg/storage/accounting_v2.go:1929-2033 | the guard on the changed connections' rows holds if and only if the changes leave nothing behind in any cell |
| HourlyIndex.Index.RemoveConn | collector/pkg/storage/accounting_v2.go:2049-2092 | a confirmed duplicate leaves the seen set everywhere and every count stays the size of its seen set |
| HourlyIndex.Index.ReaddConn | collector/pkg/storage/accounting_v2.go:2094-2151 | a connection that is no longer a duplicate is registered exactly where its nonzero rows project |
| HourlyIndex.RegisterKeepsCounts | collector/pkg/storage/accounting_v2.go:2174-2195 | registering a new pair and bumping its cell keeps every count equal to the size of its seen set |
| Correction.ApplyClassCorrection | collector/pkg/storage/accounting_v2.go:1942-2047 | correcting one connection keeps the whole index invariant (exact bytes, one-sided estimates, counts, seen set), and every cell's stale bytes grow by exactly what the change takes back |
| Plan.BuildAccountedPlan | collector/pkg/storage/accounting_v2.go:2262-2326 | the plan's rows, byte deltas and registrations are exactly those of the range's nonzero traffic |
| Plan.ApplyAccountedPlan | collector/pkg/storage/accounting_v2.go:2330-2389 | inserting a plan keeps the whole index invariant for the longer row list and changes no cell's stale bytes |
| Allocator.AllocateAccountedRowBuckets | collector/pkg/storage/accounting_classify.go:277-320 | the bucket loop terminates and returns the row's hour shares: all in the hour of an exact row, and for a spread row one per hour it meets, proportional to the overlap to less than one byte |
| Allocator.CumulativeIsMonotone | collector/pkg/storage/allocator.go:38-69 | the cumulative share of a non-negative total is monotone between 0 and the total |
| Allocator.CumulativeIsProportional | collector/pkg/storage/allocator.go:38-69 | the cumulative share is the proportional one with less than one byte held back |
| Allocator.SpreadIsProportional | collector/pkg/storage/accounting_classify.go:277-320 | a spread row has one share per hour it meets, each within one byte of the hour's proportional part |
| Allocator.DirectShareIsProportional | collector/pkg/storage/analytics.go:461-520 | the direct scan gives every window, aligned or not, its proportional part of a spread row to less than one byte |
| Allocator.AllocateIsAdditive | collector/pkg/storage/allocator.go:72-83 | adjacent windows add up exactly, whatever the split point |
| Allocator.BucketsAgreeWithDirectScan | collector/pkg/storage/accounting_classify.go:277-320 | for every hour-aligned window a row's bucket sum equals the allocator on the clipped window, unless its interval is empty |
| Allocator.BucketsConserveBytes | collector/pkg/storage/accounting_classify.go:298-319 | over a window that covers the row its shares sum to exactly its bytes |
| Allocator.SharesHaveDistinctBuckets | collector/pkg/storage/accounting_classify.go:301-318 | each share of a row lies in its own, later hour bucket |
| Windows.HourlyIsScanPlus | collector/pkg/storage/intelligence_temporal.go:479-557 | for every UTC-hour-aligned window the index's sum is the direct window total, plus the bytes of rows with an empty interval, plus the stale estimated bytes of the window's cells |
| Windows.HourlyNeverBelowScan | collector/pkg/storage/intelligence_temporal.go:479-557 | the index's sums never fall below the direct window totals, whatever the rows |
| Windows.HourlyEqualsScanIff | collector/pkg/storage/intelligence_temporal.go:479-557 | every aligned window of every dimension answers what the direct scan answers if and only if estimated cells equal the rows' sums and no row with an empty interval carries bytes |
| Windows.GenerationAnswersIff | collector/pkg/storage/accounting_v2.go:1942-2033 | the same exact condition for every published generation and the index beside it |
| Leak.LeakOvercounts | collector/pkg/storage/accounting_v2.go:2016-2028 | two literal journals: the generation for the first has an exact index, and every index that follows its commit of the second reports 9000 bytes for an hour in which the direct scan finds none |
| Windows.GetTopDimensions | collector/pkg/storage/analytics.go:427-543 | the scan's ranking holds, per name and route, the sum of the rows' window shares |
| Windows.ScanIsAdditive | collector/pkg/storage/analytics.go:461-520 | adjacent query windows of the direct scan add up |
| Statement.ScanStatesJournal | collector/pkg/storage/analytics.go:427-543 | for every published generation, window, dimension and route the direct scan is the sum over the journal's own traffic events with that name and route, confirmed duplicates left out |
| Statement.IndexStatesJournal | collector/pkg/storage/intelligence_temporal.go:479-557 | so is the hourly index for aligned windows, wherever it answers for the scan |
| Statement.WholeEventCounts | collector/pkg/storage/allocator.go:38-83 | over a window that contains it every traffic event counts in full, unless its connection is a confirmed duplicate |
| Statement.CellsCountConnections | collector/pkg/storage/accounting_v2.go:2174-2195 | every hour's count is the number of connections with accounted rows that carry the name and meet the hour |
| Cut.CutNeverSplitsFrame | collector/pkg/storage/accounting_v2.go:1065-1159 | for every journal that keeps growing after capture and probe, all connection events a frame will ever have lie on one side of the returned cut |
| Cut.CutChainNeverSplits | collector/pkg/storage/accounting_v2.go:1065-1100 | whatever the chunk sizes and however the journal grew between them, every cut of a chain that starts at zero is frame-aligned in the final journal |
| Cut.CutReachesBoundaryIff | collector/pkg/storage/accounting_v2.go:430-437 | a chunk of a fixed range reaches the range's boundary if and only if the frame there has no event behind it, is finished, and is within the chunk size |
| Cut.SplitBoundaryIsNeverReached | collector/pkg/storage/accounting_v2.go:403-437 | a seed boundary with a later event of its last frame behind it is never reached, in no longer journal and for no chunk size |
| Cut.EngineJournals | collector/pkg/state/engine.go:675-691 | every prefix of the logs of any number of collector sessions one after another is a journal the cut can rely on; with frames in time order also one incremental accounting can rely on |
| Cut.HistoriesEvolve | collector/pkg/storage/sqlite_sink.go:64-335 | between any two moments of a store's history only running sessions append, and no stopped session runs again |
| Cut.CutProgressesIff | collector/pkg/storage/accounting_v2.go:1065-1083 | a cut moves past its start if and only if the candidate's frame is finished and lies within the boundary, or begins later |
| Cut.CompleteIff | collector/pkg/storage/accounting_v2.go:1173-1214 | a frame counts as complete exactly when its session does not run, or its residual or a later frame of its session lies within the boundary |
| Cut.StoppedJournalDrains | collector/pkg/storage/accounting_v2.go:1065-1159 | once nothing runs any more a chunk that is large enough takes in the whole rest of the journal |
| StateEngine.StateEngine.ProcessIngestItem | collector/pkg/state/engine.go:312-384 | one item takes the mutable engine to the specified next state and keeps the run invariant |
| StateEngine.StateEngine.ProcessFrameInternal | collector/pkg/state/engine.go:405-1221 | a frame takes the mutable engine through gap recovery, epoch break, bootstrap or steady state as specified |
| StateEngine.StateEngine.ProcessSteadyConns | collector/pkg/state/engine.go:817-1161 | the two steady loops emit and account exactly what each connection's decision says, with confirmations decided from frame-start deltas |
| StateEngine.StateEngine.ProcessLive | collector/pkg/state/engine.go:877-1004 | a live connection's events, state and uniquely observed bytes are the specified decision's |
| StateEngine.StateEngine.RecoverConn | collector/pkg/state/engine.go:540-633 | a connection seen after a gap moves on or gets a baseline as specified |
| Decisions.SteadyIsSound | collector/pkg/state/engine.go:877-1004 | whatever a live connection does, its events are legal, its state agrees with the log, and its contribution is what the frame counts; a regression discards both directions |
| Decisions.ReobserveIsSound | collector/pkg/state/engine.go:1005-1100 | a re-observation continues the interrupted lifecycle without double counting, clamping each regressed direction separately |
| Decisions.AcrossGapIsSound | collector/pkg/state/engine.go:513-567 | a connection that lived through a gap adds its difference to the lifecycle but contributes nothing beside the gap delta |
| ConnLaws.SteadySays | collector/pkg/state/engine.go:877-1004 | what a live connection says in a frame, in the controller's own numbers: one Delta of exactly the gain, one metadata update exactly when it changed, one reclassification exactly when newly confirmed, and nothing but a report when a counter went back |
| ConnLaws.ReobservedSays | collector/pkg/state/engine.go:1005-1100 | a connection that comes back says once what it gained while away, dated to the whole absence |
| FrameLaws.FrameSays | collector/pkg/state/engine.go:405-1221 | every frame obeys the laws of its kind, connection by connection: the first frame and one whose total went back take baselines, the first after a gap accounts for the gap, all others are steady; connections that are gone are said to be gone once, and nothing else is said |
| Frames.ConfirmedIff | collector/pkg/state/engine.go:817-876 | a frame confirms exactly the connections that relay for one other connection of it and are the only one that relays for that one, in names, hops and gained bytes |
| Frames.ConfirmedEndsAsDuplicate | collector/pkg/state/engine.go:947-976 | a live connection that a steady frame confirms and that did not regress ends the frame as a confirmed duplicate, which is said once unless it was one, and its events account for nothing |
| Frames.ConfirmedStartsAsDuplicate | collector/pkg/state/engine.go:1005-1161 | a confirmed connection that the frame meets for the first time or again is a duplicate at once, and its events account for nothing |
| Frames.OnlyConfirmedAreReclassified | collector/pkg/state/engine.go:947-976 | no connection is reclassified without being confirmed by the frame |
| Frames.ResidualIsTheRest | collector/pkg/state/engine.go:1161-1221 | a steady frame's residual is the controller's growth less the gain of every connection that neither regressed nor ends the frame as a confirmed duplicate |
| Frames.ItemSays | collector/pkg/state/engine.go:224-384 | a disconnect opens one gap that reaches back to the latest frame, a health report is passed on, a shutdown before the first contact says how long the controller was out of reach, and none touches a connection |
| EngineRuns.BytesAreConserved | collector/pkg/state/engine.go:405-1221 | between any two moments of one counter epoch the controller total grew by exactly what the events in between account for, per direction, in every run |
| EngineRuns.LifecycleCounters | collector/pkg/state/engine.go:513-604 | in every reachable state a live connection's monitored total is the sum of deltas since its lifecycle began; without reported regression it is last counter minus baseline |
| EngineRuns.RunsAreLegal | collector/pkg/state/engine.go:224-354 | in every run rows are introduced before they are named, gap Opened and Closed strictly alternate, and events carry their lifecycle total |
| EngineRuns.ProcessKeepsOk | collector/pkg/state/engine.go:312-384 | every item keeps the run invariant and books exactly its change of the controller total unless it starts a new baseline |
| EngineLog.RunsAreOrdered | collector/pkg/state/engine.go:172-184 | every run emits strictly increasing (epoch, frame, event) positions, seals each frame with its residual, reports no negative traffic, and carries traffic on New and Delta events only |
| EngineLog.RunsAreSound | collector/pkg/state/engine.go:405-1221 | with frames in time order an engine log satisfies what incremental accounting assumes of a journal |
| Intervals.RunsAreClocked | collector/pkg/state/engine.go:405-1221 | in every run with strictly increasing frame times no New or Delta names an empty interval, and every connection event is dated after the zero instant |
| SparseEvidence.EvidenceIsFresh | collector/pkg/state/engine.go:280-309 | after every processed frame exactly the frame's connections are live, each with durable evidence less than 30 s older than the frame |
| SparseEvidence.RunCheckpointsAreSparse | collector/pkg/state/engine.go:294-308 | in every run with frames in time order, a checkpoint comes 30 s or more after any earlier evidence of its connection in the counter epoch |
| SparseEvidence.NoDeltaWithCheckpoint | collector/pkg/state/engine.go:280-309 | no processed frame gives one connection both a Delta and a checkpoint |
| Tombstones.LookupIsLatest | collector/pkg/state/engine.go:135-169 | after any history a lookup finds exactly the latest unconsumed disappearance, lost only by replacement, reset or 4096 newer recordings, and the store never exceeds 4096 |
| Tombstones.TombstoneStore.RecordDisappeared | collector/pkg/state/engine.go:149-160 | recording with its eviction loop follows the specified store; a stale queue entry never evicts a newer tombstone |
| Frames.FrameRemembers | collector/pkg/state/engine.go:135-169 | after every frame connections that are gone are remembered as they were last seen, those that returned are forgotten, the rest is kept up to 4096 recordings, and a baseline frame forgets all |
| Pipeline.NoEventIsRefused | collector/pkg/storage/journal.go:52-75 | a store whose session has just begun accepts every event of every engine run: neither the ordering error nor a projection contract violation is reachable |
| Pipeline.EverySessionIsAccepted | collector/pkg/storage/sqlite_sink.go:64-281 | after any history of sessions, a new session whose engine runs has every event accepted, the journal grows by exactly the engine's log, and the result is again an allowed history |
| Pipeline.LegalLogProjects | collector/pkg/storage/projector.go:246-523 | a legal log projects without contract violation, with a row for everything introduced and an open gap exactly while the log has one |
| Journal.EmitIsIdempotent | collector/pkg/storage/journal.go:31-48 | an accepted event appends one record, and sending it again changes nothing |
| SessionLaws.EmitSays | collector/pkg/storage/journal.go:31-75 | an event is a duplicate exactly when the journal holds it, a collision when it holds another of the same identity, out of order when its session stands at or behind its position, and only an accepted one changes anything |
| Journal.RebuildEqualsLive | collector/pkg/storage/recovery.go:14-126 | for every history of clean, interrupted and crashed sessions, replaying the sorted journal and closing sessions from their rows gives the live tables of every session |
| Journal.RebuildTwice | collector/pkg/storage/recovery.go:14-126 | rebuilding a rebuilt store changes nothing |
| Journal.ReplayShowsArrivalOrder | collector/pkg/storage/recovery.go:38-43 | any order the query may return shows each session its events in arrival order |
| ProjectionLaws.AllRowLaws | collector/pkg/storage/projector.go:106-194 | a row exists exactly for introduced keys, keeps its first sighting, carries the total of its latest New or Delta, and after a disappearance is reopened by a New only |
| ProjectionLaws.AllEvidenceLaws | collector/pkg/storage/projector.go:246-445 | a row's last sighting, last counters and attribution are those of its latest evidence; a disappearance reports the last presence, not its own time |
| ProjectionLaws.AllColumnLaws | collector/pkg/storage/projector.go:66-523 | every descriptive column of a row comes from the right event: start and baseline from the latest beginning, metadata and route from the latest beginning or update, the preexisting mark from the introduction, state and ending from the latest end |
| TableLaws.TrafficTableListsTraffic | collector/pkg/storage/projector.go:203-271 | the traffic table lists exactly the New and Delta events, in order, with their own bytes, interval and precision |
| TableLaws.ResidualTableListsResiduals | collector/pkg/storage/projector.go:524-562 | the residual table lists exactly the sampling residuals with the amounts they report |
| TableLaws.HealthTableListsHealth | collector/pkg/storage/projector.go:563-586 | the health table lists exactly the health events |
| TableLaws.GapTableListsGaps | collector/pkg/storage/projector.go:446-523 | for every log that opens and closes gaps in turn the gap table lists them, each opening with the closing that follows it and the controller growth in between |
| TableLaws.LatestOpenIsLatest | collector/pkg/storage/projector.go:470-523 | a closing goes to the open gap that started last |
| TableLaws.LegalGapsAreInTurn | collector/pkg/state/engine.go:224-354 | every engine log opens and closes gaps in turn |
| RowMirrors.RowsShowLiveState | collector/pkg/storage/projector.go:66-523 | in every reachable engine state a live connection has a row, which while open shows the engine's own metadata, route, attribution, total and baseline; it is ended exactly when a Bootstrap introduced the connection again |
| EngineHistories.EngineHistoriesAreReliable | collector/pkg/storage/sqlite_sink.go:64-335 | at every moment of every history of engine-fed sessions, begun one after another and ended in any way or cut off anywhere, the journal meets every assumption of accounting, cut and index |
| EngineHistories.HistoryHasOneWriter | collector/pkg/storage/sqlite_sink.go:64-181 | in every such history each session's events stand together, and a running session is the latest to have begun and the last to have written |
| Sink.ApplyEventProjection | collector/pkg/storage/projector.go:66-587 | the per-type row updates and loops compute the specified projection or report the contract violation unchanged |
| Sink.SQLiteEventSink.EmitEvent | collector/pkg/storage/sqlite_sink.go:238-281 | one transaction journals, projects and advances the session, or leaves the store unchanged |
| Sink.SQLiteEventSink.BeginNewSession | collector/pkg/storage/sqlite_sink.go:64-181 | beginning a session interrupts a previous one left running and closes its observations; a session row that is already there stays as it is |
| Sink.SQLiteEventSink.StopSession | collector/pkg/storage/sqlite_sink.go:285-335 | ending a session closes its open observations at the specified time and reason |
| SessionLaws.SessionsKeepTime | collector/pkg/storage/sqlite_sink.go:238-281 | in every history a session's last event time is that of its latest journal event, and exactly the ended ones say when they ended |
| SessionLaws.StopSays | collector/pkg/storage/sqlite_sink.go:285-335 | stopping ends every open observation, at the stop if it is clean and when the session was last heard of if not, and touches nothing else |
| SessionLaws.BeginSays | collector/pkg/storage/sqlite_sink.go:64-181 | beginning interrupts an earlier session still marked as running, starts the new one, and leaves one that is already there |
| SessionLaws.RowsEndWithTheirSession | collector/pkg/storage/recovery.go:14-126 | after any history every row ended the way its own events say or, if they leave it open, with its session |
| Sink.SQLiteEventSink.RebuildProjections | collector/pkg/storage/recovery.go:14-126 | the rebuild loops compute the specified replay and session settlement, or leave the store unchanged |
| Coverage.MeasureWindow | collector/pkg/storage/analytics.go:967-1018 | merged gaps are separated, cover exactly the instants of the window in a stored gap or after the latest session fell silent, their length is the measure of the union, covered plus uncovered is the window, and the final clamp never fires |
| Coverage.MergeIntervals | collector/pkg/storage/analytics.go:972-1010 | extending the last merged gap in place yields separated intervals with the same points |
| Coverage.LengthIsMeasure | collector/pkg/storage/analytics.go:1010-1014 | the total length of separated gaps is the number of instants they contain |
| Coverage.ReportedWithinLength | collector/pkg/storage/analytics.go:1010-1017 | millisecond truncation only loses time, and none for whole milliseconds |
| Coverage.GetCoverage | collector/pkg/storage/analytics.go:777-1023 | future, out-of-scope and effective time are the request after now, before the known past and between, uncovered is exactly the unmonitored part, and for whole milliseconds all add up, plus one millisecond exactly when the effective window is empty |

## Left out

- Coverage.GetCoverage: the coverage ratio, the gap provenance lists and the per-source gap totals are not modelled.
- Preparation.DirtyClosureCutoff: the rendered text cutoff may include up to one second more; the model compares instants.
- StateEngine.StateEngine.ProcessIngestItem: connection states are values in a map, so sharing of one state object between the live map and a tombstone is not modelled; start classification, quality flags, wall-clock gap durations and event details used only for display are left out.
- Seeding.Seed.ActivateSeedGeneration: one caller at a time; the seed boundary is taken as given and the check for another active generation, resumption and clean-up of failed seeds are left out.
- Sink.SQLiteEventSink.BeginNewSession: the session-boundary gap rows, heartbeats and version fields are left out; the choice among previous sessions with equal start times is a parameter.
- Journal.RebuildEqualsLive: created and updated stamps and session-boundary gaps are not part of the compared tables.
- Attribution.PerformFrameRelayDeduplication: evidence maps are left out, and ratios are compared by cross-multiplication instead of floating point.
- Classify.ClassifyConnectionGroup: relation evidence is left out, and ratios are compared by cross-multiplication instead of floating point.
- Windows.GetTopDimensions: distinct-connection counts, sorting and limits are left out.
- Times are integers in nanoseconds and identifiers are numbers; RFC 3339 text, its lexicographic comparison, JSON, SHA-256 and 64-bit overflow are left out.
- SQLite itself: a transaction is atomic or absent; retries, locks, checkpoints, migrations, disk probes and telemetry are left out.
- Preparation.PrepareIncrementalChunk: the relation records of a chunk and the keys whose records it refreshes are left out.
- GenerationStore.Store.CommitChunk: the relation refresh and the run record of the transaction are left out.
- Cut.CutNeverSplitsFrame: the frame probes are separate queries in the source; the model lets them read one snapshot taken after the boundary.
- Relay relation rows: which records a chunk refreshes is left out; what each record says is in `Classify.RecordsDecision`.
- The legacy full rebuild's batched row writing and run bookkeeping, freshness checks, usage summary fields, and finding ranking: bookkeeping around the modelled steps, with no state of its own that they depend on.
- HTTP and WebSocket clients, the query API, authentication, the command line, the desktop shell, supervision, backoff, bounded queues and a sink failure in the middle of a frame.
