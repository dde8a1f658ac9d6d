# Verified model of the decision engine's cost fitting and background protocols

The decision engine learns what a payment costs per connector from settlement reports, and keeps its
routing knobs, analytics and overrides up to date in the background. This project models the parts of
that machinery that hold an algorithm or a protocol, and proves what they promise.

**Cost-model fitting.** A report streams in as batches of rows; each row is folded into a bucket of
additive sums (`Pipeline`, `Rollup`); buckets are written to a daily table and fitted per cluster over an
adaptive window into dated snapshots and read back for serving (`DailyTable`, `FitSql`, `FitModel`,
`Snapshots`, `MergedReads`, `ServedReports`); clusters that one line cannot price are cut into straight
pieces by a partition DP (`LeastSquares`, `Grading`, `MinimumSplit`, `Partition`, `SplitOptimality`,
`Segmentation`, `Recovery`, `SegmentRefresh`, `Ladders`). The results chain: raw rows to sums, sums to the
unique least-squares line, lines to grades, grades to the cheapest split, and back to the transactions
(`OneKinkRecovered`, `VerdictMeaning`, `NoSplitIsCheaper`, `EmittedByField`, `ServedLineFitsReports`).

**Protocols.** The compare-and-swap job queue (`JobQueue`), the calibrator's timed lock
(`CalibrationLock`), the bounded analytics queue (`AnalyticsQueue`) and the body-capture handshake
(`BodyCapture`) are state machines over their atomic steps; the results hold for every interleaving.

**Smaller cores.** The calibrator's config-rewriting loop (`Calibration`), the override store and its
indices (`Overrides`), the noise-floor auth band (`AuthBand`) and card-number validation (`CardNumber`).

Conventions. `f64` is `real`, so rounding error is absent; NaN and infinity are `None`. Square roots are
removed by squaring (`bps <= 15` is `BpsSquared <= 225`; the DP cost `(b/1e4)^2 * n` is the clamped
quadratic itself). `10^(k/10)` is any positive, strictly increasing `AmountScale`; the band of an amount
is a function parameter. Days are day numbers. The source's stateful loops are methods proved against
functions, and the theorems are about those functions. A ReplacingMergeTree is what it stores, what a
merge may drop and what a `FINAL` read may return. Where a property holds only under a condition, the
exact one is proved: the lock's delay bound (`LockExclusiveExactly`), non-empty dimensions and near
targets of case variants for the calibration fixpoint (`CalibrationFixpointExactly`,
`CaseVariantsExactly`, with `ThreeVariantsDrift`), stored sizes that wrap onto the target for the bucket
deadband (`ManagedEntriesOnTarget`, with `AliasedEntryStays`), overlapping merchant ids for the override
indices (`RunsAgree`, with `ColonsCollide`), a gaining cut for the segmenter's gate (`GateIsRedundant`,
with `NegativeVolumeIsCut`), dates, a definite count and a complete identifier for a refit
(`RefitIsCurrentExactly`), what a deleted ingestion had superseded (`DeleteUndoesInsertExactly`), which
buckets have only one possible content after deletions (`BucketSettledExactly`), which clusters every
read serves although the snapshot table's sort key omits funding (`ServedExactly`, with
`FundingCollapses`; for amount tiers `LaddersReadExactly`, with `LaddersMix`), and when a capture waiter
is beyond reach (`StuckExactly`). The exact condition of the segmenter's gate is met only by sums with a
negative volume, which `segment_cluster` accepts as a function but which never reach it from the daily
table (`StoredBandsNeverGain`).

Where code and comments differ, the code is followed: the daily table's comments speak of a five-euro
floor, but `rollup.rs` only skips rows without a positive gross; `segment_clusters_from_tsv` says it
omits single-piece clusters, but it omits every cluster that is not a clean recovery; the header of
`fit.rs` grades GOOD only from 200 transactions, but its SQL also promotes a well-pinned slope from 30
on; `delete_ingestion_rows` says that undoing a report drops the days it superseded, but a version that
was not merged away shows again.

To check: `dafny verify dfyconfig.toml`.

## Model

| member | source | states |
|---|---|---|
| `SufficientStats.FoldConcat` | src/cost_ingestion/segment.rs:52-79 | folding transactions is a homomorphism: the sums of a concatenation are the field-wise sum of the parts' sums |
| `SufficientStats.FoldSums` | src/cost_ingestion/segment.rs:52-79 | each of the eleven sums is the sum, over the transactions, of its own monomial in amount, fee and reciprocal amount |
| `LeastSquares.CauchySchwarz` | src/cost_ingestion/segment.rs:172-175 | `n*sxx - sx^2` is never negative, and is positive exactly when two amounts differ |
| `LeastSquares.FitDefinedExactly` | src/cost_ingestion/segment.rs:167-175 | `fit` has no line exactly when there are fewer than two transactions or all amounts are equal |
| `LeastSquares.FitIsUniqueMinimiser` | src/cost_ingestion/segment.rs:166-178 | the line computed from sums alone is the unique minimiser of the sum of squared residuals over the transactions |
| `LeastSquares.FitIsLeastSquares` | src/cost_ingestion/segment.rs:166-186 | `fit` returns the one line whose squared residuals over the transactions no other line undercuts |
| `LeastSquares.SlopeSseIsSquaredError` | src/cost_ingestion/segment.rs:179-184 | the short SSE used for the slope's standard error equals the sum of squared residuals of the fitted line |
| `LeastSquares.BpsSquaredMeaning` | src/cost_ingestion/segment.rs:154-164 | `eval_bps` squared times `n` is 10^8 times the sum of `((y - a - b*x)/x)^2` |
| `LeastSquares.AbsoluteQIsSquaredError` | src/cost_ingestion/segment.rs:198-207 | the `abs_rms` quadratic is the sum of squared residuals, for any line |
| `LeastSquares.ExactLineRecovered` | src/cost_ingestion/segment.rs:166-186 | transactions that lie on one line are fitted by exactly that line |
| `Grading.RegimesAddUp` | src/cost_ingestion/segment.rs:209-222 | the below/above split of the bands loses and duplicates nothing |
| `Grading.CrossoverMeaning` | src/cost_ingestion/segment.rs:188-196 | the crossover is the amount whose proportional fee equals the fixed fee, and 0 unless rate and fixed fee are both positive |
| `Grading.GoodVerdictMeaning` | src/cost_ingestion/segment.rs:224-263 | both directions: a piece is GOOD exactly when its raw transactions number 25 and vary in amount, the residuals of their least-squares line in the right regime stay within 15 bps RMS, and there are 200 of them or 1.96 slope standard errors are within 15 bps |
| `Grading.VerdictMeaning` | src/cost_ingestion/segment.rs:224-263 | both verdicts, of a piece and of a whole cluster, as conditions on the raw transactions: their number against 25 and 200, the residuals of their least-squares line in the right regime against 15 bps, and 1.96 standard errors of its slope |
| `Grading.ExactPieceIsGood` | src/cost_ingestion/segment.rs:240-263 | a piece lying exactly on its fitted line, with 25 transactions, is GOOD in every regime |
| `Grading.NoErrorMeansOnLine` | src/cost_ingestion/segment.rs:284-295 | a piece with zero relative error has every transaction of every band on its line |
| `MinimumSplit.Scan` | src/cost_ingestion/segment.rs:303-312 | a finite cell has a back pointer to a finite cell of the previous row whose cost plus the last piece's cost is the cell's cost; an infinite cell has none |
| `MinimumSplit.ScanKeepsFirst` | src/cost_ingestion/segment.rs:303-312 | of equally cheap last cuts the cell keeps the first |
| `MinimumSplit.LeastIsLowerBound` | src/cost_ingestion/segment.rs:301-314 | no split of the first `j` bands into exactly `k` feasible pieces is cheaper than `dp[k][j]` |
| `MinimumSplit.RebuildAttains` | src/cost_ingestion/segment.rs:316-330 | following the back pointers from a finite entry gives exactly `k` non-empty pieces that tile the bands and attain the entry's cost |
| `Partition.ChooseIsBest` | src/cost_ingestion/segment.rs:332-351 | the chosen piece count is reachable, maximises the GOOD volume rounded to 0.01, and is the smallest that does |
| `Partition.PartitionsTile` | src/cost_ingestion/segment.rs:265-276 | the returned ranges tile the bands in order, at most five, and are empty only for no bands |
| `SplitOptimality.CostMeaning` | src/cost_ingestion/segment.rs:284-295 | the cost of a range of bands is finite exactly when its transactions number 25 and vary in amount, and then is the sum of squared relative residuals of their own least-squares line and nothing else |
| `SplitOptimality.ReachableMeaning` | src/cost_ingestion/segment.rs:297-320 | a count of pieces is reachable exactly when the bands can be cut into that many such ranges |
| `SplitOptimality.NoSplitIsCheaper` | src/cost_ingestion/segment.rs:271-353 | over the raw transactions, no cut into as many feasible pieces has a smaller squared relative error than the returned one |
| `SplitOptimality.SplitIsSelected` | src/cost_ingestion/segment.rs:332-353 | of the cheapest cuts of one to five pieces, ties broken by the earliest last cut, the returned one has the most GOOD cents and of those the fewest pieces; the whole is returned when no cut is feasible |
| `SplitOptimality.GoodVolumeMeaning` | src/cost_ingestion/segment.rs:332-344 | the GOOD volume of a split is the amount of the raw transactions in the pieces whose transactions meet the conditions of a GOOD verdict |
| `Partition.RangeFromPrefixes` | src/cost_ingestion/segment.rs:276-283 | every range sum is the difference of two prefix sums |
| `Partition.FillPrefixes` | src/cost_ingestion/segment.rs:276-282 | the prefix array holds the sums of every prefix of the bands |
| `Partition.FillCell` | src/cost_ingestion/segment.rs:303-312 | the innermost loop, in place: the cell ends with the least cost and its back pointer, and every other finished or blank cell stays so |
| `Partition.FillTable` | src/cost_ingestion/segment.rs:297-314 | after the nested loops every cell of both tables holds what the recurrence says |
| `Partition.RebuildParts` | src/cost_ingestion/segment.rs:316-330 | the rebuilding loop fails exactly when no split into that many pieces exists, and otherwise returns the optimal one |
| `Partition.MeasureGoodVolume` | src/cost_ingestion/segment.rs:339-344 | the GOOD volume computed from prefix sums is the volume of the pieces graded Good |
| `Partition.SelectSplit` | src/cost_ingestion/segment.rs:332-351 | the selection loop returns the best split of the best piece count, or nothing when none is reachable |
| `Partition.SegmentPartitions` | src/cost_ingestion/segment.rs:271-353 | the whole imperative routine computes the specified partition |
| `Segmentation.ComputeSegments` | src/cost_ingestion/segment.rs:385-417 | the segments computed through the tables are the specified ones |
| `Segmentation.VolumeConserved` | src/cost_ingestion/segment.rs:385-417 | segment volumes add up to the cluster's volume, and their GOOD part is what the selection measured |
| `Segmentation.CountConserved` | src/cost_ingestion/segment.rs:393-397 | segment transaction counts add up to the number of transactions |
| `Segmentation.AmountRangesDisjoint` | src/cost_ingestion/segment.rs:391-395 | amount ranges of the segments are non-empty, ascending and disjoint |
| `Segmentation.SegmentCoversItsBands` | src/cost_ingestion/segment.rs:391-395 | a segment's amount range covers the ranges of exactly its own bands, starting at the first and ending at the last |
| `Segmentation.SegmentFitsItsTransactions` | src/cost_ingestion/segment.rs:388-414 | each segment's volume, count, line, mean squared relative residual and verdict are those of its own raw transactions; the line is their unique least-squares line and is missing exactly when they determine none |
| `Segmentation.GoodGradeStaysWhole` | src/cost_ingestion/segment.rs:332-352 | a cluster that one line already grades Good is returned as one piece if and only if no reachable split has more rounded GOOD volume than the cluster has volume, and without negative volumes none has |
| `Segmentation.GoodClusterStaysWhole` | src/cost_ingestion/segment.rs:419-436 | a cluster the gate calls Good would be surfaced if and only if such a cut gains and its volume is positive; without negative volumes it never is |
| `SplitOptimality.CleanRecoveryMeaning` | src/cost_ingestion/segment.rs:355-378 | a clean recovery is reported exactly when the cluster was cut and its GOOD pieces carry at least nine tenths of its positive gross amount |
| `Segmentation.NegativeVolumeIsCut` | src/cost_ingestion/segment.rs:419-436 | an input on which a cut gains: one band of volume -1 makes a gate-Good cluster come back cut and clean |
| `Recovery.PiecewiseRecovery` | src/cost_ingestion/segment.rs:242-353 | bands that split into at most five exact runs (25 transactions, two amounts each) come back as no more segments than runs, with all volume GOOD up to the 0.01 rounding |
| `Recovery.LinearClusterUncut` | src/cost_ingestion/segment.rs:380-386 | a cluster on a single line comes back as one segment |
| `Recovery.RecoveredIsClean` | src/cost_ingestion/segment.rs:361-378 | for such clusters with volume at least 0.1, a clean recovery is reported exactly when the cluster was cut |
| `Recovery.FullCutIsExact` | src/cost_ingestion/segment.rs:284-353 | when as many segments come back as there are exact runs, every segment is GOOD and its line prices every one of its transactions exactly |
| `Recovery.OneKinkRecovered` | src/cost_ingestion/segment.rs:475-508 | a schedule with one kink is cut if and only if one line is not GOOD for it, and the two recovered lines are then exactly the two of the schedule, wherever the cut falls |
| `Recovery.CappedFeeIsRecovered` | src/cost_ingestion/segment.rs:475-508 | one percent capped at 50 with amounts past the cap: one line is not GOOD for it, and it comes back as exactly two GOOD pieces, 100 bps without a fixed fee and a flat 50 |
| `SegmentRefresh.SortRestoresOrder` | src/cost_ingestion/fit.rs:313-315 | in whatever order a cluster's bands arrive, sorting restores the ascending band table (sorted and a permutation) |
| `SegmentRefresh.GateIsRedundant` | src/cost_ingestion/fit.rs:313-327 | the early `continue` on a Good cluster changes what is surfaced if and only if a cut gains on a Good cluster of positive volume; without negative volumes it never does |
| `SegmentRefresh.SurfacedMeaning` | src/cost_ingestion/fit.rs:313-329 | stored bands are surfaced, with the segments of their split, exactly when that holds |
| `SegmentRefresh.SortIsStable` | src/cost_ingestion/fit.rs:313-315 | bands with one index keep their order |
| `SegmentRefresh.ParseLineMeaning` | src/cost_ingestion/fit.rs:278-306 | a printed line parses back to the cluster and band it prints; a line is skipped exactly when it has fewer than 19 columns or no integer band, and an unreadable number reads as 0 |
| `SegmentRefresh.PrintedBandsComeBack` | src/cost_ingestion/fit.rs:233-315 | in whatever order a source's bands are printed, each cluster's come back as exactly its table of base-window bands |
| `SegmentRefresh.GroupLines` | src/cost_ingestion/fit.rs:272-311 | the parsed lines are grouped by cluster in line order; malformed lines contribute nothing |
| `SegmentRefresh.SegmentClustersFromTsv` | src/cost_ingestion/fit.rs:272-329 | each cluster occurs at most once in the output, exactly when it is surfaced, with its segments |
| `Rollup.RollupAccumulator.AddRow` | src/cost_ingestion/rollup.rs:183-217 | folding a row keeps, for exactly the keys that occur, each bucket equal to the sums of its rows and each BIN count equal to its rows; which rows are whose is said field by field |
| `Rollup.RollupAccumulator.IntoRows` | src/cost_ingestion/rollup.rs:244-272 | the emitted rows enumerate the bucket map without repetition |
| `Rollup.RollupAccumulator.BinRows` | src/cost_ingestion/rollup.rs:228-242 | total BIN support equals the number of rows with a BIN, and each row's support is its key's count |
| `Rollup.BinPrefixSpec` | src/cost_ingestion/types.rs:140-151 | the BIN key is the longest run of leading digits of at most six characters, and its own key |
| `Rollup.LeadingDigitsSpec` | src/cost_ingestion/types.rs:140-151 | the BIN key is the longest run of leading digits, up to six, a prefix of the BIN and its own key |
| `Rollup.GroupingLosesNothing` | src/cost_ingestion/rollup.rs:68-70 | summing per bucket over covering distinct keys, for any selection of keys, equals folding the selected raw rows |
| `Rollup.EmittedBucketsAreRawSums` | src/cost_ingestion/rollup.rs:3-8 | the emitted buckets, summed over any selection of clusters, days, bands and channels, are the sums of exactly the raw rows selected |
| `Rollup.EmittedByRows` | src/cost_ingestion/rollup.rs:183-217 | whenever a selection of buckets is one of raw rows, by day, amount band, channel and the seven cluster fields, the emitted rows sum to the kept rows selected |
| `Rollup.EmittedByField` | src/cost_ingestion/rollup.rs:198-217 | for every value of each of the ten key fields, the emitted rows with it sum to the kept raw rows that carry it in the same field; the product is the mapped one of the row's BIN, else its interchange rate in basis points, and the day its own or the fallback |
| `Pipeline.ParseInBatches` | src/cost_ingestion/source.rs:143-166 | accepted batches concatenate to a prefix of the row stream, to all of it on success; every batch but the last is exactly full, on an error all are; it fails only if the source does or the consumer refuses, and then right after the batches accepted |
| `Pipeline.IngestBatches` | src/cost_ingestion/pipeline.rs:151-173 | whatever the batch boundaries, every row is folded once and in order, and the report's currencies, countries, period, gross total and count are those of the rows |
| `Pipeline.IngestReport` | src/cost_ingestion/pipeline.rs:136-186 | end to end, for every row list and batch size, the emitted rows are exactly the buckets of the raw rows and, summed over any key selection, give the raw fold |
| `FitSql.WindowMeaning` | src/cost_ingestion/fit.rs:76-105 | a row of a cluster is in the segmenter's window exactly when no row of the source is more than 90 days later, and in the fit's exactly when that holds, or when none is more than 365 days later and fewer than 200 of the cluster's transactions are on later days |
| `FitSql.KeptDaysClosed` | src/cost_ingestion/fit.rs:76-94 | the days kept by the adaptive window are closed under "more recent" |
| `FitSql.WindowReachesSamples` | src/cost_ingestion/fit.rs:76-94 | either every day of the maximum window is kept or the kept transactions number at least 200 |
| `FitSql.WindowIsMinimal` | src/cost_ingestion/fit.rs:76-94 | without its oldest day outside the base window the adaptive window holds fewer than 200 transactions |
| `FitSql.AdaptiveIsBase` | src/cost_ingestion/fit.rs:78-94 | with 200 transactions in the base window, the adaptive window is exactly the base window |
| `FitSql.BandTableSpec` | src/cost_ingestion/fit.rs:95-105 | the per-band table is ascending and holds, per band, the sum of the selected daily rows of that band |
| `FitSql.BandTableIndices` | src/cost_ingestion/fit.rs:95-105 | the table has a band exactly when a selected row has it |
| `FitSql.BandTableSum` | src/cost_ingestion/fit.rs:123-128 | the whole-cluster sums equal the sum of the selected daily rows |
| `FitSql.SameLine` | src/cost_ingestion/fit.rs:108-112 | on sums of transactions, the SQL line and the Rust line exist together and are equal, although one tests for a zero and the other for a non-positive denominator |
| `FitSql.GradersAgree` | src/cost_ingestion/fit.rs:130-157 | the SQL and Rust graders agree on GOOD from 30 transactions on, except for a purely fixed-fee cluster, which the SQL never grades GOOD; from 200 on this covers the segmenter's gate |
| `FitSql.FitBandsMeaning` | src/cost_ingestion/fit.rs:108-157 | every column the SQL computes for a cluster on its raw transactions: count, gross, line, the mean squared relative residual above the crossover, and the four-way verdict with its constants 30, 200 and 15 bps |
| `FitModel.EveryClusterKeepsADay` | src/cost_ingestion/fit.rs:76-105 | a cluster has a model row exactly when a row of it is at most 365 days older than the source's latest, because it then keeps at least one |
| `FitModel.FitEmptyIffNoData` | src/cost_ingestion/fit.rs:497-519 | the fit is empty exactly when the source has no daily row, because the window ends at the latest transaction |
| `FitModel.BandsMeaning` | src/cost_ingestion/fit.rs:95-105 | the bands both queries work on are ascending, one for each band that a row in the cluster's window has, with the sums of those rows |
| `FitModel.PublishedLineIsLeastSquares` | src/cost_ingestion/fit.rs:4-9 | the published rate and fixed fee are the unique least-squares line of the transactions in the cluster's window, the count and gross are theirs, and the line is missing exactly when they determine none |
| `FitModel.PublishedRowMeaning` | src/cost_ingestion/fit.rs:108-157 | the whole published row, verdict and error included, on the raw transactions behind the daily rows of the cluster's window |
| `FitModel.SameBands` | src/cost_ingestion/fit.rs:233-246 | with 200 base-window transactions the SQL fit and the segmenter see the same bands |
| `FitModel.GoodModelHasNoTiers` | src/cost_ingestion/fit.rs:144-157 | such a cluster with a GOOD model row passes the Rust gate and gets no segment rows |
| `FitModel.StoredBandsNeverGain` | src/cost_ingestion/rollup.rs:198-217 | bands read from daily rows that hold sums of transactions have no negative volume, so no cut of a gate-Good cluster ever gains |
| `DailyTable.UpsertAllSpec` | src/cost_ingestion/sink.rs:46-72 | after an insert each written row is shown, and any other row survives unless a written row has its identity |
| `DailyTable.FinalSpec` | clickhouse/scripts/035_cost_model.sh:64-80 | a `FINAL` read shows exactly the last version of each identity, one row per identity |
| `DailyTable.FullMerge` | clickhouse/scripts/035_cost_model.sh:64-80 | keeping only what `FINAL` shows is a possible merge, and shows the same |
| `DailyTable.UpsertAllConcat` | src/cost_ingestion/sink.rs:26-34 | splitting an insert into chunks changes nothing |
| `DailyTable.DeleteOwnedSpec` | src/cost_ingestion/sink.rs:260-303 | a delete removes exactly the stored versions the ingestion wrote |
| `DailyTable.DeleteUndoesInsertExactly` | src/cost_ingestion/sink.rs:260-265 | deleting a new ingestion shows again what was shown before it, whatever the database merged in between, if and only if the ingestion had superseded nothing; without any merge it always does |
| `Snapshots.RefitIsCurrentExactly` | src/cost_ingestion/fit.rs:531-561 | after a refit the latest snapshot, as inserted, is the current fit exactly when: with data, no snapshot is dated later or the latest equals it anyway; without, a zero count was definitely read for a complete identifier, or no snapshot of another date was left |
| `Snapshots.OtherSourcesUnaffected` | src/cost_ingestion/fit.rs:212-231 | a refit leaves the latest snapshot of every other source the latest |
| `Snapshots.RunsStayCurrent` | src/cost_ingestion/fit.rs:212-231 | after any run of inserts, deletes, merges and refits, the latest snapshot of a source, as inserted, is the fit of the rows shown at its last refit, or none of any date remains when it had none |
| `Snapshots.RunsReadCurrent` | src/cost_ingestion/serving.rs:606-622 | over such runs, what a read of a source may return is exactly a `FINAL` read of its fit at the last refit, or nothing |
| `MergedReads.ReadsAllExactly` | clickhouse/scripts/035_cost_model.sh:111-113 | a `FINAL` read returns all rows inserted together if and only if no two share a sort key; for a snapshot, if and only if no two of its clusters differ in funding alone |
| `CostTypes.SortKeyMeaning` | clickhouse/scripts/035_cost_model.sh:111-113 | two clusters share their part of the sort key exactly when they agree in everything but funding |
| `MergedReads.FundingAloneCollides` | clickhouse/scripts/035_cost_model.sh:111-113 | sort keys are distinct exactly when no two clusters differ in funding alone |
| `Snapshots.ServedExactly` | src/cost_ingestion/serving.rs:606-622 | every read serves all GOOD clusters of positive gross of the snapshot if and only if none of them differs from another cluster of it, GOOD or not, in funding alone |
| `MergedReads.MergesInvisible` | clickhouse/scripts/035_cost_model.sh:111-113 | background merges of rows inserted together change nothing about what their `FINAL` reads may return |
| `Snapshots.Warehouse.InsertDailyStats` | src/cost_ingestion/sink.rs:53-72 | the chunked insert appends all rows and returns their count; then each written row is shown and every row of another identity stays shown |
| `Snapshots.Warehouse.DeleteIngestionRows` | src/cost_ingestion/sink.rs:266-303 | the versions kept are exactly those the ingestion did not write, every other row shown before is still shown, and no snapshot changes |
| `Snapshots.Warehouse.FitSnapshot` | src/cost_ingestion/fit.rs:531-561 | the clear, insert, count and purge sequence has the refit step's effect, and returns the snapshot's counts |
| `ServedReports.MergedDailyIsSurviving` | src/cost_ingestion/sink.rs:46-52 | over whole runs with complete merges the daily table holds, per source and bucket, exactly the sums of the raw rows of the last report with rows in it, unless that ingestion was deleted since |
| `ServedReports.DailyHoldsReports` | src/cost_ingestion/sink.rs:260-303 | over runs with any merges each stored version holds the sums of a report not deleted since, and the last report of a bucket is shown while it is not deleted |
| `ServedReports.BucketSettledExactly` | src/cost_ingestion/sink.rs:260-303 | every run shows the same of a bucket if and only if its last report was not deleted or no older report of it is left; otherwise the older one shows in a run without merges |
| `ServedReports.ServedLineFitsReports` | src/cost_ingestion/serving.rs:606-622 | end to end over runs with any merges and for any `FINAL` read: each row read is the unique least-squares line of the raw report rows behind its own cluster's window at the last refit and is served exactly when GOOD; every fitted cluster has a row with its sort key, and all are read if and only if no two differ in funding alone |
| `ServedReports.StreamedReportFitsRawRows` | src/cost_ingestion/rollup.rs:3-8 | a report's buckets inserted into empty tables and fitted: each row read is the unique least-squares line of the report's own rows in its cluster's window, none of which was stored, and all clusters are read if and only if no two differ in funding alone |
| `ServedReports.FundingCollapses` | clickhouse/scripts/035_cost_model.sh:111-113 | an input on which a cluster is lost: a report of two rows that differ only in funding gives two fitted clusters, and no read returns both |
| `Ladders.LaddersReadExactly` | clickhouse/scripts/037_cost_fee_model_segment.sh:51-57 | every `FINAL` read of the segment table returns every segment of every surfaced cluster if and only if no two of these clusters differ in funding alone |
| `Ladders.LaddersMix` | clickhouse/scripts/037_cost_fee_model_segment.sh:51-57 | of two such clusters some read returns the first segment of the one and the second of the other |
| `Ladders.RungKeyMeaning` | clickhouse/scripts/037_cost_fee_model_segment.sh:51-57 | two segment rows share a sort key exactly when they hold one place in ladders of one cluster, or of two that differ in funding alone |
| `JobQueue.RunInvariant` | src/cost_ingestion/store.rs:48-270 | the inductive invariant holds in every state of every interleaving |
| `JobQueue.ExactlyOnceClaiming` | src/cost_ingestion/store.rs:147-194 | in every interleaving of any number of workers, each job id is won by at most one `claim_pending` call, once |
| `JobQueue.NeverBackToPending` | src/cost_ingestion/store.rs:168-193 | a job that is past pending, or deleted, is never pending again |
| `JobQueue.TriedIsPastPending` | src/cost_ingestion/store.rs:166-193 | every id a claim had in its snapshot and has tried is past pending, whoever won it, so a finished claim leaves none of its snapshot behind |
| `JobQueue.ProcessingIsWon` | src/cost_ingestion/store.rs:168-193 | a queued job that is being processed has been won by a claim in that run |
| `JobQueue.NotificationsUnique` | src/cost_ingestion/store.rs:58-90 | two live rows never share a connector and a notification id |
| `JobQueue.UndisturbedClaimWinsAll` | src/cost_ingestion/store.rs:159-193 | without interference a claim wins its whole snapshot, in order |
| `JobQueue.UndisturbedClaimTakesOldest` | src/cost_ingestion/store.rs:147-194 | such a claim takes the oldest pending jobs, as many as the limit allows, sets those to processing and touches nothing else |
| `JobQueue.ClaimCanBegin` | src/cost_ingestion/store.rs:147-165 | a claim can begin in every state, whatever its limit, and with a large enough one has every pending job in its snapshot |
| `JobQueue.ReportIsClaimed` | src/cost_ingestion/store.rs:48-194 | in every state, a report that no live row announces can be queued under a fresh id and won by a claim, whatever else is queued |
| `JobQueue.JobRunsThrough` | src/cost_ingestion/store.rs:196-290 | a job being processed can then report progress, end either way and be deleted by its merchant, each with exactly that effect |
| `JobQueue.RowTellsItsLastWrites` | src/cost_ingestion/store.rs:48-270 | over every run a row exists exactly when it was inserted and not deleted by its own merchant since; its status, staged rows and error are those of the last statement that writes them, and its identity that of its insert |
| `JobQueue.RowWasInserted` | src/cost_ingestion/store.rs:48-118 | nothing but an insert brings a row into being |
| `CalibrationLock.StepKeepsInv` | src/sr_auto_calibration.rs:191-220 | each step keeps: every key expires no earlier than two intervals after its bucket began, and no two wins share a key |
| `CalibrationLock.LateRun` | src/sr_auto_calibration.rs:195-210 | for any longer delay there is a run in which two replicas win the same merchant and bucket |
| `CalibrationLock.TryWinsExactly` | src/sr_auto_calibration.rs:191-220 | over every run, whatever the delays, an attempt wins the key of its merchant and of the interval its pass began in exactly when nobody has won that key within the last two intervals |
| `CalibrationLock.LockExclusiveExactly` | src/sr_auto_calibration.rs:191-230 | the lock is exclusive per (merchant, bucket) over all runs if and only if no attempt comes later than one interval after its bucket was computed |
| `Calibration.RootSteps` | src/sr_auto_calibration.rs:101-113 | the smallest step count with `sqrt(V/d)/5 < k + 1/2`, by integer inequalities on both sides |
| `Calibration.AutoBucketIsNearest` | src/sr_auto_calibration.rs:101-113 | the bucket is the minimum without two gateways or volume, and otherwise the multiple of 25 nearest to `5*sqrt(V/(n-1))`, or the bound that one lies beyond |
| `Calibration.ShareRefreshesWindow` | src/sr_auto_calibration.rs:122-132 | unless capped, each alternative gateway's share brings a full window of transactions within the reaction horizon, and above the one-percent floor no more than that |
| `Calibration.HedgeBounds` | src/sr_auto_calibration.rs:115-135 | hedging is at least one percent per alternative gateway and never above the maximum, up to rounding |
| `Calibration.HedgeIsTotalShare` | src/sr_auto_calibration.rs:115-135 | hedging is 5 percent without two gateways or volume; otherwise a hundred times the shares of all `n-1` alternatives together, at most the maximum, in hundredths |
| `Calibration.HedgeMovedExactly` | src/sr_auto_calibration.rs:334-343 | the hedging deadband is one percentage point, exclusive; a missing knob has always moved |
| `Calibration.MatchDeterminesCluster` | src/sr_auto_calibration.rs:436-459 | one entry cannot match two segments that differ ignoring case |
| `Calibration.MatchesMeaning` | src/sr_auto_calibration.rs:436-459 | an entry matches a segment exactly when it names no card BIN and each of the six dimensions matches: one stored missing or empty only an unset one, another only the same value ignoring case |
| `Calibration.EqIgnoreCaseMeaning` | src/sr_auto_calibration.rs:436-459 | equality ignoring case is character-wise equality up to the case of ASCII letters |
| `Calibration.HumanEntriesUntouched` | src/sr_auto_calibration.rs:324-369 | entries not marked autopilot are never altered, others only in their two knobs, and the list only grows at its end |
| `Calibration.RunTouchesOnlyItsOwn` | src/sr_auto_calibration.rs:300-369 | every entry that a run changes is the first match of one of its segments, and every one it appends was written for one |
| `Calibration.CalibrationFixpointExactly` | src/sr_auto_calibration.rs:324-373 | when segments that differ only in case have targets within the deadbands of each other, in particular when there are none, a second run on the same traffic changes and writes nothing if and only if no segment has an empty dimension |
| `Calibration.CaseVariantsExactly` | src/sr_auto_calibration.rs:300-373 | of two segments that differ only in case, a second run always ends with the same entries, and writes nothing on every input if and only if their targets are within the deadbands of each other |
| `Calibration.ThreeVariantsDrift` | src/sr_auto_calibration.rs:300-373 | an input of three such segments on which a second run on the same traffic changes the entries |
| `Calibration.RunOutcome` | src/sr_auto_calibration.rs:324-369 | what a run leaves of a segment's entry depends only on that entry going in: a missing one is written, a human one kept, an autopilot one rewritten exactly when either knob had moved |
| `Calibration.BucketMovedExactly` | src/sr_auto_calibration.rs:334-343 | the bucket deadband spares exactly the stored integers that are within 24 of the target modulo 2^32, or 2^31 away from it |
| `Calibration.AliasedEntryStays` | src/sr_auto_calibration.rs:334-343 | an input for which the deadband fails: an entry stored at the target plus 2^32 or minus 2^31 is never retuned |
| `Calibration.ManagedEntriesOnTarget` | src/sr_auto_calibration.rs:334-343 | after a run every managed first match is within one percentage point of its target; it is within 25 bucket units if and only if, going in, there was no entry, no size, a moved hedging or a size that does not wrap onto the target, as always when the sizes going in are non-negative i32 |
| `Calibration.CalibrateMerchant` | src/sr_auto_calibration.rs:300-373 | the call fails exactly when no segment has the minimum volume and two gateways; otherwise the loop computes the specified list, changes and appends entries for such segments only, and writes the config exactly when some iteration changed an entry |
| `AnalyticsQueue.QueueConservation` | src/analytics/runtime.rs:104-187 | in every interleaving: queue within capacity, accepted events equal published then in hand then queued in order, and the counter is queue length plus unsubtracted receipts minus unincremented sends modulo 2^64 |
| `AnalyticsQueue.AcceptedExactly` | src/analytics/runtime.rs:104-133 | over every run, the accepted events are exactly the events sent while the queue held fewer than `max(1, configured)`, in order, and the dropped ones the rest |
| `AnalyticsQueue.NothingLostWithRoom` | src/analytics/runtime.rs:104-187 | in a run whose queue never fills, everything sent is published, in hand or queued, in order |
| `AnalyticsQueue.AllCanBePublished` | src/analytics/runtime.rs:104-187 | from every state of every run, any further events can all be sent, accepted, counted and published in order, and the drained queue's counter reads 0 |
| `AnalyticsQueue.DepthExactAtQuiescence` | src/analytics/runtime.rs:175-182 | when the pending increments balance the pending subtractions the counter is exactly the queue length |
| `BodyCapture.RunInvariant` | src/analytics/capture.rs:23-92 | the handshake invariant holds in every state of every interleaving |
| `BodyCapture.NotifiesAtMostOnce` | src/analytics/capture.rs:37-41 | waiters are notified at most once per body, however it ends |
| `BodyCapture.SnapshotIsWholeBody` | src/analytics/capture.rs:43-48 | a returned snapshot is the in-order concatenation of every data frame, unless the body was polled for data after its end |
| `BodyCapture.LateFramesAreMissed` | src/analytics/capture.rs:109-135 | for any frames before its end and any polled after it there is a run in which a waiter that comes after the end gets exactly those before, so that exception is needed |
| `BodyCapture.BodyGoesOn` | src/analytics/capture.rs:109-135 | from every state a body can deliver any further frames and ends in order, with nothing but its notification between them, and all the data is observed |
| `BodyCapture.StuckExactly` | src/analytics/capture.rs:85-92 | after the notification a sleeping waiter is beyond reach exactly when it registered after it, and then it had loaded the flag before completion |
| `BodyCapture.StuckForever` | src/analytics/capture.rs:85-92 | such a waiter stays asleep for the rest of the run |
| `BodyCapture.WaiterFinishes` | src/analytics/capture.rs:80-92 | after the notification every waiter that is not stuck and not about to be can reach its snapshot on its own |
| `BodyCapture.UnregisteredGetsStuck` | src/analytics/capture.rs:85-92 | one that has seen the flag unset and not registered by then is stuck once it does |
| `BodyCapture.LostWakeUp` | src/analytics/capture.rs:85-92 | a concrete interleaving in which this happens |
| `Overrides.OverrideNameInjective` | src/cost_ingestion/overrides.rs:76-78 | for one merchant, or two whose ids do not overlap, record names determine merchant and connector |
| `Overrides.SharedRecordExactly` | src/cost_ingestion/overrides.rs:76-78 | two merchants have overrides that share a record if and only if one id followed by "::" is a prefix of the other followed by "::" |
| `Overrides.PlainIdsApart` | src/cost_ingestion/overrides.rs:76-78 | ids without "::" inside and without a final colon never overlap |
| `Overrides.ColonsCollide` | src/cost_ingestion/overrides.rs:76-184 | a concrete failure: merchants "a" and "a::b" share a record, and one put for the longer id breaks the agreement of the shorter one |
| `Overrides.FamiliesApart` | src/cost_ingestion/overrides.rs:76-93 | override, index, cluster and global record names never coincide |
| `Overrides.CallKeepsInv` | src/cost_ingestion/overrides.rs:178-237 | each call keeps the indices, cluster lists and stored overrides in agreement for every id that does not overlap with its merchant's |
| `Overrides.RunsAgree` | src/cost_ingestion/overrides.rs:131-237 | over all runs by any set of callers, a connector is indexed exactly when its override exists, for every merchant of a set, if and only if no id of the set overlaps a different caller's; a merchant is listed exactly when it has an override of either kind, nothing is listed twice and cluster dims are distinct, without condition |
| `Overrides.LastWriteWins` | src/cost_ingestion/overrides.rs:170-237 | over all runs the cluster list is what the calls for the merchant left, and, where no caller overlaps with it, the stored override is the last one put and not deleted since |
| `Overrides.OverrideStore.PutFee` | src/cost_ingestion/overrides.rs:178-184 | the three writes have the specified effect and keep the agreement for all non-overlapping ids |
| `Overrides.OverrideStore.DeleteFee` | src/cost_ingestion/overrides.rs:186-205 | succeeds exactly when the override exists, with the specified effect, otherwise changes nothing, and keeps the agreement for all non-overlapping ids |
| `Overrides.OverrideStore.PutClusterFee` | src/cost_ingestion/overrides.rs:218-226 | replaces the override with the same dims, indexes the merchant, keeps the agreement for all non-overlapping ids |
| `Overrides.OverrideStore.DeleteClusterFee` | src/cost_ingestion/overrides.rs:228-237 | removes the override with those dims, prunes the global index when nothing is left, keeps the agreement for all non-overlapping ids |
| `Overrides.List` | src/cost_ingestion/overrides.rs:156-166 | returns the stored records of the indexed connectors, which under the agreement for this merchant are each of its stored overrides once, and nothing else |
| `AuthBand.InBandIffSlack` | src/analytics/models.rs:710-729 | below the leader, membership in the noise-floor band is a quadratic inequality without roots |
| `AuthBand.BandMeaning` | src/analytics/models.rs:703-729 | for all scores and parameters, without roots: off admits everyone, a fixed band its half-width, and a noise floor a gap below the leader of at most `z` standard errors of `max(1, bucketSize)` samples; a negative `z` asks for as much above the leader |
| `AuthBand.BandIsInterval` | src/analytics/models.rs:710-729 | if a candidate is inside its own band, so is every candidate scoring between it and the leader |
| `AuthBand.LargerBucketNarrows` | src/analytics/models.rs:718-726 | enlarging the bucket size never admits a new candidate below the leader |
| `CardNumber.Digits` | src/validations.rs:29-48 | succeeds exactly when every character is a digit, with the digits in order |
| `CardNumber.TermFormula` | src/validations.rs:64-67 | the branch on the place's parity equals the source's branch-free formula |
| `CardNumber.Verdict` | src/validations.rs:13-71 | the outcome on the raw input: a character that is neither digit nor white space is refused, then fewer than 8 or more than 19 digits, and the rest is valid exactly when the check sum taken from the left ends in 0 |
| `CardNumber.SumFitsU8` | src/validations.rs:59-71 | for every accepted number the u8 sum does not overflow |
| `CardNumber.SingleErrorDetected` | src/validations.rs:59-71 | changing any single digit of a valid number makes it invalid |
| `CardNumber.SwapDetectedExactly` | src/validations.rs:59-71 | swapping two adjacent digits goes unnoticed exactly when they are equal or are 0 and 9 |
| `CardNumber.CheckDigitUnique` | src/validations.rs:59-71 | every prefix has exactly one valid final digit |
| `CardNumber.StripKeepsRest` | src/validations.rs:14-14 | nothing but whitespace is dropped |
| `CardNumber.WhitespaceIrrelevant` | src/validations.rs:13-22 | whitespace anywhere in the input makes no difference to the outcome |

## Left out

- f64 rounding error, NaN propagation through `greatest`, and i64/u64 limits of the database columns: exact reals and integers are used.
- SuffStats: a `Copy` record, modelled as a value whose `Add` and `Plus` return the updated record.
- The accumulating loops of `sum_bands` and `split_regime` and the iterator chains of `segment_cluster`: modelled as recursive functions.
- JobQueue, CalibrationLock, AnalyticsQueue, BodyCapture: modelled as state machines over values rather than as classes, because the subject is the interleaving of their atomic steps; the look-up that precedes the insert in `enqueue_pending` changes no state and is not a step.
- CalibrationLock: clock skew between replicas and Redis errors (the source then proceeds without a lock) are not modelled.
- AnalyticsQueue: the exported gauge value is not modelled, only the counter behind it; a failed persist counts as published, since the batch is cleared either way.
- BodyCapture: weak memory orderings and cancellation of a waiting task are not modelled.
- FitSnapshot: the summary count reads without `FINAL`, so rows that share a sort key may or may not be merged when it runs; the counts returned are those of the rows as inserted.
- Serving's roll-up of the GOOD rows across accounts and into its coarse and fine keys, and its amount tiers.
- The `r2` column, the per-ingestion summary counts and the `cost_fee_model_segment` table over time: reporting only, and only the current date of the segment table is cleared.
- TSV number parsing, JSON parsing and string/number formatting: a field carries what parsing it gives.
- The version order of the daily table: versions are ordered by insertion, as `ingested_at` orders them unless clocks go back.
- The 400-day TTL of `cost_daily_stats` (clickhouse/scripts/035_cost_model.sh): rows are modelled as kept until deleted.
- Partial failures inside a fit, an insert or an override call, and retries after them: completed steps only.
- Idempotence of re-ingesting a report across a changed BIN map, which is part of the bucket key.
- HTTP routes, database, Kafka and Redis clients, connector parsers, serving look-ups, credentials, authentication, routing rules and dashboards: I/O, library-bound, or easy.
