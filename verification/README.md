# fuzzer-utils, modelled in Dafny

fuzzer-utils is a set of Python scripts that post-process the output of fuzzing campaigns
(AFL-style fuzzers and their variants). This project models their analysis core:

- **Corpus time series.** Several scripts turn a fuzzer's corpus into per-target time series.
  They are edge_coverage/single.py, edge_coverage/worker.py, edge_coverage/main.py,
  crash/main.py and real_path_counter.py.
  - Entry files are found by name pattern.
  - They are sorted by modification time and put into time bins from the campaign's start time.
  - For each bin, a dictionary records a count: covered edges, new paths (novelty judged by
    AFL-style hit-count classes), crashes, or "real" entries.
- **Gap filling.** Collectors and plotters turn a sparse bin dictionary into dense rows,
  carrying each value forward over missing bins.
- **Averaging.** data_avg_plotter.py, edge_avg_plotter.py and crash_avg_plotter.py read those
  rows back and average them over runs.
- **Leaders.** leader_plotter.py counts, at each time step, which tool leads on each target.
- **First finds.** crash_reporter.py and patch_reporter.py replay crash files and record the
  bin of each target's first find of each stack trace or return code.
- **A12.** a12_calculator.py computes the Vargha-Delaney A12 statistic over two such reports.
- **Function-coverage statistics.** fot_stat/fot_stat.py and fot-stat/fot-stat.py compute
  per-rank statistics from function-coverage logs, and fot_stat/stat_avg.py averages them.

The model takes the scripts' own shape:

- Loops that update local state are methods with loop invariants.
- Each method is proved equal to a specification function.
- Properties of those functions are lemmas.
- A Python exception or `sys.exit` becomes an `Err` of a `Result`, which ends the fold that
  models the surrounding loop.
- The threaded `Worker` objects are classes whose `Run` method updates their dictionaries.
- Processes, the file system and JSON decoding are function parameters.

## Model

| member | source | states |
|---|---|---|
| TimeBin.TruncDiv | edge_coverage/single.py:421 | `int(a / b)` truncates toward zero: the result times `b` lies within one `b` of `a`, on the side of zero |
| TimeBin.TruncDivAboveFloor | edge_coverage/single.py:421 | for a negative non-multiple dividend, truncation is one above the floored quotient, so a file up to one bin before the start lands in bin 0 |
| TimeBin.BinMonotone | edge_coverage/single.py:397-422 | a later modification time never gets an earlier bin |
| TimeBin.BinNonNegative | edge_coverage/single.py:420-422 | a file at or after the start time gets a non-negative bin, and the start itself bin 0 |
| TimeBin.SecondsPerBin | edge_coverage/single.py:600-606 | minute names give 60, second names 1, every other unit 3600 |
| TimeBin.SwapMargin | edge_coverage/single.py:687-690 | a width of 1, 60 or 3600 seconds becomes the number of such bins in an hour; other widths are kept |
| TimeBin.SwapInvolution | edge_coverage/single.py:687-690 | swapping twice gives the width back |
| TimeBin.SwappedSpanCoversHours | edge_coverage/single.py:687-690 | after the swap, `max_span * margin` bins of the unit's width span exactly `max_span` hours |
| Bucket.GetBucket | edge_coverage/single.py:334-346 | a count up to 4 is kept; 5..7, 8..15, 16..31, 32..127 and 128 or more become 4, 8, 16, 32 and 128 |
| Bucket.BucketRange | edge_coverage/single.py:334-346 | every non-negative count falls in one of the nine classes, no larger than the count |
| Bucket.BucketIdempotent | edge_coverage/single.py:334-346 | a class value is its own class |
| Bucket.BucketMonotone | edge_coverage/single.py:334-346 | a larger count never gets a smaller class |
| Bucket.BucketSameClass | edge_coverage/single.py:334-346 | two counts share a class exactly when they lie in the same band |
| Series.LastWrite | edge_coverage/single.py:473-482 | the dictionary holds exactly the bins written |
| Series.LastWriteWins | edge_coverage/single.py:473-482 | each bin holds the value of the last write to it |
| Series.MonotoneUpdate | edge_coverage/single.py:479-482 | writing a value no smaller than any held, at a bin no smaller than any known, keeps the dictionary monotone |
| Series.LastWriteMonotone | edge_coverage/single.py:473-482 | writes in bin order with growing values leave a dictionary that grows with the bin, bounded by the last value |
| Series.DefaultZero | edge_coverage/single.py:484-487 | bin 0 is present afterwards, keeps its value if it had one, and no other bin changes |
| Series.DefaultZeroMonotone | edge_coverage/single.py:484-487 | defaulting bin 0 keeps a monotone dictionary over non-negative bins and counts monotone |
| Series.LastWriteDominated | edge_coverage/single.py:473-475 | writes at the same bins with pointwise smaller values leave a dictionary with the same bins, pointwise smaller |
| Series.LastWriteValues | edge_coverage/single.py:473-482 | every value held was written, at one of the bins written |
| Series.WrittenMonotone | edge_coverage/single.py:473-487 | ordered non-negative writes leave a monotone dictionary, still monotone after the bin-0 default |
| Novelty.ParseLine | edge_coverage/single.py:443-465 | the only error a line raises is `ValueError`: the `IndexError` of a missing second field is caught |
| Novelty.ParseFormatHit | edge_coverage/single.py:444-445 | every line in showmap's `edge:count` format parses back to its hit |
| Novelty.ParseLineWithoutColon | edge_coverage/single.py:444-445 | a line without ':' is skipped when it is a number and aborts the run otherwise |
| Novelty.ParseAll | edge_coverage/single.py:442-465 | a successful parse gives at most one hit per line |
| Novelty.ParseAllAbort | edge_coverage/single.py:442-465 | a bad line aborts the whole output, whatever follows |
| Novelty.Record | edge_coverage/single.py:448-461 | the value is recorded for the edge afterwards, and the flag is raised exactly when it was not recorded before |
| Novelty.ObserveHitsSeen | edge_coverage/single.py:448-461 | after an entry, the histories record exactly what they held plus the entry's pairs |
| Novelty.ObserveHitsEdges | edge_coverage/single.py:448-463 | both histories and the covered set gain exactly the entry's edges |
| Novelty.ObserveHitsGrow | edge_coverage/single.py:448-461 | per-edge lists only grow, at their end |
| Novelty.ObserveHitsNoDuplicates | edge_coverage/single.py:448-461 | no per-edge list holds a value twice |
| Novelty.ObserveHitsNew | edge_coverage/single.py:437-461 | an entry is a new path exactly when one of its (edge, class) pairs was unrecorded when it was reached, and likewise for raw counts |
| Novelty.ObserveHitsLockstep | edge_coverage/single.py:444-461 | the two histories know the same edges, one holding the classes of the other's counts, so a new bucketed path is always a new raw path |
| Novelty.ScanShowmap | edge_coverage/single.py:440-465 | the line loop gives the verdict of the parsed hits, or the first line's error |
| Novelty.CoverLines | edge_coverage/worker.py:128-134 | the covered set gains exactly the edges of the lines, or the first bad line's error |
| Corpus.MatchFile | edge_coverage/single.py:379-394 | a file yields exactly one entry when some pattern matches its name and its bin is admitted, and none otherwise |
| Corpus.DirEntriesMatch | edge_coverage/single.py:374-394 | every found entry comes from a listed file that some pattern matches |
| Corpus.CollectDir | edge_coverage/single.py:377-394 | the listing loop finds the entries of the directory's matching files, in listing order |
| Corpus.CollectEntries | edge_coverage/single.py:374-394 | the directory loops find every directory's entries, in directory order |
| Corpus.SortByMtime | edge_coverage/single.py:397 | the sort is a permutation ordered by modification time |
| Corpus.ResolveStart | edge_coverage/single.py:399-402 | a given start is kept; a null start that falls back takes the earliest entry's time and fails exactly when there is no entry; the only errors are `TypeError`, `IndexError` and `KeyError` |
| Corpus.Rebinned | edge_coverage/single.py:420-422 | every entry keeps its path and time and gets the bin of its own time |
| Corpus.Rebin | edge_coverage/single.py:420-422 | the rebinning loop gives the rebinned entries |
| Corpus.RebinnedSorted | edge_coverage/single.py:397-422 | rebinning keeps the order by modification time, with every bin that of its own time |
| Corpus.FoundBinned | edge_coverage/worker.py:94-111 | with bins computed at discovery, every found entry carries the bin of its own time |
| Corpus.SortedBinned | edge_coverage/worker.py:105-114 | sorting keeps every entry's bin |
| Corpus.SortedBinsFromStart | edge_coverage/single.py:397-422 | after the sort, bins never decrease; from the earliest time, every bin is non-negative and the first entry is in bin 0 |
| Corpus.DeferredLimitKeepsAll | edge_coverage/single.py:387-390 | with bins still 0 at discovery, a non-negative `bin_limit` rejects nothing |
| Targets.FirstStatsFinds | edge_coverage/single.py:544-555 | the probe finds nothing exactly when no probed location holds a file, and otherwise the file of a probed location |
| Targets.FindStatsFile | edge_coverage/single.py:544-555 | the nested search with its `break`s finds the parent's stats file before the directory's own, the first directory first |
| Targets.StartFromStatsNone | edge_coverage/single.py:564-571 | no start time is read exactly when no line mentions `start_time` |
| Targets.StartFromStatsFirst | edge_coverage/single.py:564-568 | the first line that mentions `start_time` alone decides the result |
| Targets.ReadStartTime | edge_coverage/single.py:564-568 | the line loop stops at the first matching line with its value or error |
| Targets.Sanitize | edge_coverage/single.py:531-573 | an accepted target has non-empty entry directories and some start setting; the fallback form also needs `need_execution` |
| Targets.SanitizeTarget | edge_coverage/single.py:531-573 | the checks, the probe and the stats read give the outcome of `Sanitize` |
| Targets.SanitizeNeedsDirs | edge_coverage/single.py:534-541 | every form skips a target without entry directories |
| Targets.StatsStartWins | edge_coverage/single.py:560-568 | a start time read from the stats file overrides the configured one |
| Targets.ConfiguredStartSurvives | real_path_counter.py:69-84 | without a stats start, a configured start survives; without either, the stats form skips and the fallback form leaves the start null |
| Targets.ExplicitOnlyAccepts | edge_coverage/main.py:45-57 | the key-check form accepts exactly targets with non-empty `entry_dirs` and some `start_time`, and never raises |
| EdgeSingle.CheckEntriesCounts | edge_coverage/single.py:467-471 | every entry is checked once, and new bucketed paths never outnumber new raw paths |
| EdgeSingle.CheckEntryCoveredGrows | edge_coverage/single.py:463 | the covered-edge set only grows from entry to entry |
| EdgeSingle.CheckEntryFields | edge_coverage/single.py:430-482 | one entry adds one to the checked count and at most one to each path count, and appends one write at its bin to each dictionary with the new counts |
| EdgeSingle.CheckEntryWrites | edge_coverage/single.py:473-482 | one more entry keeps the writes at the entries' bins, bounded by the counters and non-decreasing |
| EdgeSingle.CheckEntriesWrites | edge_coverage/single.py:430-482 | the loop writes once per entry to each dictionary, at the entry's bin, with non-decreasing values |
| EdgeSingle.CheckEntriesAbort | edge_coverage/single.py:442-465 | an entry with a non-integer line field stops the target, whatever follows, unless an earlier entry already did |
| EdgeSingle.CheckEntriesAbortAt | edge_coverage/single.py:430-465 | a failed entry ends the loop; nothing after it is looked at |
| EdgeSingle.SeriesOf | edge_coverage/single.py:484-491 | the edge and bucketed entry dictionaries get bin 0, the raw one does not |
| EdgeSingle.SeriesMonotone | edge_coverage/single.py:473-487 | entries in bin order give dictionaries that grow with the bin, bucketed counts never above raw counts, with the same bins apart from the defaulted bin 0 |
| EdgeSingle.WritesFollowBins | edge_coverage/single.py:473-482 | the writes inherit the order and the sign of the entries' bins |
| EdgeSingle.EntrySeries | edge_coverage/single.py:430-487 | the edge and bucketed entry dictionaries of a completed loop hold bin 0 |
| EdgeSingle.ScanEntries | edge_coverage/single.py:424-487 | the entry loop with local tracker and counters computes `EntrySeries` |
| EdgeSingle.WriteOfEntry | edge_coverage/single.py:473-482 | the i-th entry writes, at its bin, the counts as they stood right after it |
| EdgeSingle.SeriesAtLastOfBin | edge_coverage/single.py:473-482 | each bin holds the covered-edge count and both path counts as they were after the last entry of that bin |
| EdgeSingle.TargetOutcome | edge_coverage/single.py:364-491 | a processed target's edge and bucketed entry dictionaries hold bin 0 |
| EdgeSingle.ProcessTarget | edge_coverage/single.py:364-491 | the steps of `run` for one target compute `TargetOutcome` |
| EdgeSingle.TargetSeriesMonotone | edge_coverage/single.py:397-487 | with a null start, or one no later than any entry, the dictionaries grow with the bin and bucketed path counts stay at most the raw ones |
| EdgeSingle.EntriesFromStart | edge_coverage/single.py:397-422 | binning sorted entries from a start no later than any of them gives ordered, non-negative bins |
| EdgeSingleRun.Store | edge_coverage/single.py:489-491 | the target's name joins the names of all three dictionaries, and no other name is added or removed |
| EdgeSingleRun.Outcomes | edge_coverage/single.py:364-491 | one outcome per target, in order, each that target's `TargetOutcome` |
| EdgeSingleRun.RunJobsHalted | edge_coverage/single.py:364-491 | once the thread has died, later targets change nothing |
| EdgeSingleRun.RunJobsKeys | edge_coverage/single.py:489-491 | a worker's three dictionaries always hold the same names, and names are never removed |
| EdgeSingleRun.RunJobsStored | edge_coverage/single.py:489-491 | every name a worker holds was stored for one of its targets with that target's dictionaries, unless it was there before |
| EdgeSingleRun.Worker.constructor | edge_coverage/single.py:349-360 | a new worker holds empty dictionaries |
| EdgeSingleRun.Worker.Run | edge_coverage/single.py:362-491 | the worker's dictionaries become what its targets store, and the error that ended the thread is returned |
| EdgeSingleRun.MergeAllKeys | edge_coverage/single.py:677-685 | the merged dictionaries hold the same names, each a target whose worker stored it |
| EdgeSingleRun.MergeAllStored | edge_coverage/single.py:620-685 | a target is in the merged dictionaries exactly when its worker finished it without rejecting it, and then with its own dictionaries |
| EdgeSingleRun.MergedHaveZero | edge_coverage/single.py:484-487 | every merged edge and bucketed entry dictionary holds bin 0 |
| EdgeSingleRun.SingleRun | edge_coverage/single.py:620-629 | one worker run over a single target stores exactly what the merge stores for it |
| EdgeSingleRun.CopyWorker | edge_coverage/single.py:679-685 | copying a worker's dictionaries into the merged ones is the merge step for its target |
| EdgeInit.EdgeIds | edge_coverage/single.py:667-670 | one edge id, or its `ValueError`, per line |
| EdgeInit.InitCovered | edge_coverage/single.py:665-673 | the count succeeds exactly when every line has an edge id, and its only error is `ValueError` |
| EdgeInit.InitCoveredIds | edge_coverage/single.py:665-673 | a successful count covers exactly the edge ids of the lines |
| EdgeInit.SeedEntries | edge_coverage/single.py:641-650 | the entries are exactly the listed seeds, under the seed directory, in bin 0 |
| EdgeInit.InitEntries | edge_coverage/single.py:636-652 | the listed seeds, and only they, sorted by modification time |
| EdgeInit.CountInitEdges | edge_coverage/single.py:636-673 | the seed loop computes the number of distinct edges the seeds cover, or the first bad line's error |
| EdgeInit.AddLines | edge_coverage/single.py:665-671 | one seed's lines add their ids to the covered set, or stop at the first bad line |
| EdgeSingleMain.SanitizeConfig | edge_coverage/single.py:502-528 | an empty target list or an unknown unit exits; otherwise a trailing '/' is added and `plot_figure` defaults to true |
| EdgeSingleMain.PlotPasses | edge_coverage/single.py:692-697 | every figure pass is over one of the three merged dictionaries |
| EdgeSingleMain.CollectPasses | edge_coverage/single.py:699-703 | every data-file pass is over one of the three merged dictionaries |
| EdgeSingleMain.RunWorkers | edge_coverage/single.py:620-629 | one worker per target, each left holding what its single target stores |
| EdgeSingleMain.MergeWorkers | edge_coverage/single.py:679-685 | the copy loops give the merged dictionaries of the targets |
| EdgeSingleMain.Analyze | edge_coverage/single.py:589-703 | a bad configuration exits, a bad seed line raises before the merge; otherwise the merge holds the finished targets, and the passes report over it |
| EdgeSingleMain.ZeroKept | edge_coverage/single.py:484-487 | every merged edge and bucketed entry dictionary holds bin 0, so passes over them never fail |
| EdgeSingleMain.FailingPassIsRaw | edge_coverage/single.py:95-98 | a failing pass is over the raw entry dictionary, at a group with neither bin 0 nor a positive bin |
| EdgeSingleMain.RawEntriesOnlyFailure | edge_coverage/single.py:692-703 | the output stage stops only with `ValueError`, at a target whose raw entry dictionary has neither bin 0 nor a positive bin |
| GapFill.GreatestKeyAtMost | edge_coverage/single.py:109-112 | the search stops at a known bin at or below the row, with no known bin between the two |
| GapFill.GreatestKeyUnique | edge_coverage/single.py:109-112 | any known bin with no known bin between it and the row is the one found |
| GapFill.RowCount | edge_coverage/single.py:109 | `max_bin + 1` rows, none for a negative `max_bin` |
| GapFill.XColumn | edge_coverage/single.py:113-114 | the x value of row i is i + 1 |
| GapFill.YColumn | edge_coverage/single.py:115 | the y value of row i is the value carried into bin i, less the offset |
| GapFill.FillRows | edge_coverage/single.py:106-115 | the fill loop gives the x and y columns |
| GapFill.DenseReproduced | edge_coverage/single.py:109-115 | a dictionary that knows every bin is reproduced unchanged |
| GapFill.GreatestKeyMonotone | edge_coverage/single.py:109-112 | a later row never carries an earlier known bin |
| GapFill.RowsMonotone | edge_coverage/single.py:109-115 | values that grow with the bin give rows that never decrease |
| GapFill.CarriedValueKnown | edge_coverage/single.py:109-115 | every carried value is held by the dictionary at a bin no later than the row |
| GapFill.EnsureZero | edge_coverage/single.py:95-99 | bin 0 present afterwards; the backfill copies the smallest positive bin, or raises `ValueError` when there is none; fail-fast exits |
| GapFill.EnsureZeroIdempotent | edge_coverage/single.py:95-99 | securing bin 0 again changes nothing, so later passes compute the same rows |
| GapFill.BackfillLeadingRows | edge_coverage/single.py:95-115 | after a backfill every row before the first positive bin carries that bin's value |
| GapFill.GroupRows | edge_coverage/single.py:92-115 | a group that can be filled gives one x and one y value per row |
| GapFill.FillGroups | edge_coverage/single.py:88-115 | the groups' rows in sorted name order, stopping at the first failing group |
| GapFill.FailFastStopsAtFirstMissing | crash/main.py:184-189 | under fail-fast the loop stops exactly at the first group without bin 0 |
| GapFill.RowLines | edge_coverage/single.py:123-125 | one `x,y` line per row, in order |
| GapFill.CollectOverTime | edge_coverage/single.py:86-125 | one data file per group, in sorted name order, with the group's rows, up to the first failing group |
| Passes.GroupFile | edge_coverage/single.py:92-125 | a group's file exists exactly when the group can be filled, and holds its rows |
| Passes.FailedPass | edge_coverage/single.py:92-99 | a pass that stopped early has a group that cannot be filled |
| Passes.FullPass | edge_coverage/single.py:92-115 | a pass that filled every group succeeds |
| Passes.CollectedFiles | edge_coverage/single.py:86-125 | a collect pass writes only its groups' files, and all of them when it did not stop |
| Passes.RunPlots | edge_coverage/single.py:692-697 | the figure passes stop exactly at the first pass with a group that cannot be filled |
| Passes.RunCollects | edge_coverage/single.py:699-703 | the collect passes write their groups' files, stopping at the first group that cannot be filled |
| Passes.Report | edge_coverage/single.py:692-703 | every file is a collect pass's group file; the stage stops exactly when some group cannot be filled; otherwise every group gets its file |
| EdgeCount.CountEntryKeeps | edge_coverage/worker.py:128-144 | one entry keeps the tally's relation to its entries: the covered set only grows |
| EdgeCount.CountEntriesShape | edge_coverage/worker.py:119-144 | the loop's tally follows its entries: one write per entry to each dictionary at its bin |
| EdgeCount.CountEntriesAbort | edge_coverage/worker.py:128-134 | a bad entry stops the loop and nothing after it runs |
| EdgeCount.CountEntriesCovered | edge_coverage/worker.py:128-132 | the covered set of a completed loop is exactly the edges its entries name |
| EdgeCount.TallySeries | edge_coverage/worker.py:146-152 | when defaulting is asked for, both dictionaries hold bin 0 |
| EdgeCount.CountSeries | edge_coverage/worker.py:119-149 | when defaulting is asked for, both dictionaries of a completed loop hold bin 0 |
| EdgeCount.ScanCounts | edge_coverage/worker.py:116-149 | the entry loop computes `CountSeries` |
| EdgeCount.EntryCountAtLastOfBin | edge_coverage/worker.py:138-139 | each bin's entry count is the position of the last entry of that bin |
| EdgeCount.EdgeCountAtLastOfBin | edge_coverage/worker.py:141-144 | each bin's edge count is the number of distinct edges named up to the last entry of that bin |
| EdgeCount.SeriesBins | edge_coverage/worker.py:136-149 | both dictionaries hold exactly the entries' bins, plus bin 0 when defaulted |
| EdgeCount.CountSeriesMonotone | edge_coverage/worker.py:136-149 | with ordered non-negative bins, both dictionaries grow with the bin and entry counts stay within the number of entries |
| EdgeCount.CountedEntries | edge_coverage/worker.py:94-114 | the sorted entries of a target, binned at discovery from the start time |
| EdgeCount.CountOutcome | edge_coverage/worker.py:75-152 | a counted target passed sanitising with a given start time, and with defaulting its dictionaries hold bin 0 |
| EdgeCount.CountTarget | edge_coverage/worker.py:75-152 | the loop body for one target computes `CountOutcome` |
| EdgeCount.NullStartRaises | edge_coverage/worker.py:80 | a null start time that survives sanitising raises before any entry is read |
| EdgeCount.CountOutcomeMonotone | edge_coverage/worker.py:94-149 | with no entry older than the start, both dictionaries grow with the bin, and entry counts stay within the number of entries |
| EdgeCount.CountedEntriesOrdered | edge_coverage/worker.py:94-114 | with no entry older than the start, the bins are non-negative and never decrease |
| EdgeCount.CountOutcomes | edge_coverage/worker.py:75-152 | one outcome per target, in order |
| EdgeCount.RunAllHalted | edge_coverage/worker.py:73-152 | once the loop has stopped, later targets change nothing |
| EdgeCount.RunAllHalt | edge_coverage/worker.py:73-152 | the loop stops exactly when some target raises, with the first such error |
| EdgeCount.RunAllKeys | edge_coverage/worker.py:151-152 | both dictionaries hold the same names: those before and those of processed targets |
| EdgeCount.RunAllStored | edge_coverage/worker.py:151-152 | a target reached before any error is stored exactly when processed, with its own dictionaries |
| EdgeWorker.Worker.constructor | edge_coverage/worker.py:61-71 | a new worker holds empty dictionaries |
| EdgeWorker.Worker.Run | edge_coverage/worker.py:73-152 | the worker's dictionaries become what its targets store, and the error that ended the thread is returned |
| EdgeWorker.RunAllKeepsZero | edge_coverage/worker.py:146-152 | when every processed target's dictionaries hold bin 0, so does every stored one |
| EdgeWorker.WorkerGroupsFill | edge_coverage/edge_time_plotter.py:23-46 | every dictionary a worker holds has bin 0, so the fail-fast plotter and collectors accept it |
| EdgeMain.SanitizeConfig | edge_coverage/main.py:19-42 | an empty target list or an unknown unit exits; otherwise a trailing '/' is added |
| EdgeMain.CountAll | edge_coverage/main.py:100-175 | the target loop stores each processed target's dictionaries and stops at the first error |
| EdgeMain.RunScript | edge_coverage/main.py:72-178 | the script as written: a bad configuration exits, else the loop, then the figure call |
| EdgeMain.MainNeverFinishes | edge_coverage/main.py:177 | every run of the script as written ends in an exception |
| EdgeMain.FailFastFills | edge_coverage/edge_time_plotter.py:23-46 | under fail-fast a group can be filled exactly when it has bin 0 |
| EdgeMain.MainPlotted | edge_coverage/main.py:100-177 | with the figure call completed, the script finishes exactly when the loop does and every stored edge dictionary has bin 0 |
| EdgeMain.MainBinZero | edge_coverage/main.py:164-170 | without a default, a processed target has bin 0 exactly when one of its entries falls into bin 0 |
| GroupStore.StoreAllHalted | crash/main.py:125-172 | once the loop has stopped, later targets change nothing |
| GroupStore.StoreAllHalt | crash/main.py:125-172 | the loop finishes exactly when no target raises, otherwise with the first target's error |
| GroupStore.StoreAllKeys | crash/main.py:172 | every stored dictionary is that of a processed target of that name |
| GroupStore.StoreAllKeepsZero | crash/main.py:170-172 | when every processed target's dictionary holds bin 0, so does every stored one |
| CrashMain.CrashWrites | crash/main.py:166-169 | the i-th crash file writes i + 1 into its bin |
| CrashMain.CountCrashes | crash/main.py:163-171 | the counting loop gives the written dictionary with bin 0 defaulted |
| CrashMain.CrashCountAtLastOfBin | crash/main.py:166-169 | each bin holds the number of crash files up to its last one |
| CrashMain.CrashBins | crash/main.py:166-171 | the dictionary holds exactly the files' bins and bin 0 |
| CrashMain.CrashSeriesMonotone | crash/main.py:166-171 | with ordered non-negative bins, the counts grow with the bin and never exceed the number of files |
| CrashMain.CrashOutcome | crash/main.py:127-172 | a counted target's dictionary always holds bin 0 |
| CrashMain.CrashTarget | crash/main.py:127-172 | the loop body for one target computes `CrashOutcome` |
| CrashMain.CrashOutcomeMonotone | crash/main.py:131-171 | with no file older than the start, the dictionary grows with the bin within the number of files |
| CrashMain.CrashOutcomes | crash/main.py:125-172 | one outcome per target, in order |
| CrashMain.CrashAllHaveZero | crash/main.py:170-189 | every stored dictionary has bin 0, so the output stage's fail-fast check never fires |
| CrashMain.CrashLoop | crash/main.py:125-172 | the target loop computes the stored dictionaries and the first error |
| CrashMain.CrashSpanMismatch | crash/main.py:195 | as written, the rows span `max_span` hours only for minute bins: 3600 times too many for hours, 3600 times too few for seconds |
| CrashMain.CrashMaxBinHours | crash/main.py:195 | the corrected span covers exactly `max_span` hours in bins of the unit's width |
| CrashMain.CrashScript | crash/main.py:101-214 | a bad configuration exits; otherwise the loop, then one `_crash_time.txt` file per stored group in sorted order, which never stops early; the rows cover the corrected span `CrashMaxBinHours`, not the as-written one (see Left out) |
| RealPath.RealEntries | real_path_counter.py:258-271 | the entries that are real, in order: executed or not, their output does not match `false_path_pattern` |
| RealPath.RealEntriesComplete | real_path_counter.py:261-271 | exactly the real entries are kept, none left out |
| RealPath.RealEntriesAppend | real_path_counter.py:261-271 | the real entries of two runs are those of the first, then the second |
| RealPath.NoExecutionKeepsAll | real_path_counter.py:264-269 | without execution every entry is real unless `false_path_pattern` is empty, and then none is |
| RealPath.RealEntriesOrdered | real_path_counter.py:254-271 | real entries keep the order of the entries' bins |
| RealPath.CountReal | real_path_counter.py:258-271 | the entry loop gives the dictionary where the k-th real entry writes k into its bin |
| RealPath.RealBins | real_path_counter.py:261-272 | the dictionary holds exactly the real entries' bins |
| RealPath.RealCountAtLastOfBin | real_path_counter.py:269-271 | each bin holds the number of real entries up to its last real entry |
| RealPath.RealSeriesMonotone | real_path_counter.py:254-271 | with ordered non-negative bins, counts grow with the bin, between 1 and the number of entries |
| RealPath.SortedCorpus | real_path_counter.py:223-246 | the found entries in modification-time order |
| RealPath.RealOutcome | real_path_counter.py:213-272 | the only errors are the sanitiser's own and, for a null start that falls back to the earliest entry, `IndexError` |
| RealPath.RealTarget | real_path_counter.py:213-272 | the loop body for one target computes `RealOutcome` |
| RealPath.RealOutcomeBinZero | real_path_counter.py:248-271 | bin 0 is present exactly when a real entry falls into it, always so without execution from the earliest entry unless the pattern is empty |
| RealPath.RealOutcomeMonotone | real_path_counter.py:248-271 | with no entry older than a given start, the dictionary grows with the bin within the number of entries |
| RealPath.RealOutcomes | real_path_counter.py:213-272 | one outcome per target, in order |
| RealPath.RealLoop | real_path_counter.py:209-272 | the target loop computes the stored dictionaries and the first error |
| RealPath.RealPlots | real_path_counter.py:279-280 | at most one figure pass, over the stored dictionaries with no offset |
| RealPath.RealScript | real_path_counter.py:189-282 | a bad configuration exits; otherwise the loop, the unit swap, then the figure and data-file passes |
| RealPath.RealReportFinishes | real_path_counter.py:136-173 | the output stage finishes exactly when every group has bin 0, and then every group has its `_entry_time.txt` file |
| StackTrace.Normalize | crash_reporter.py:98 | no quote remains, and the result is one character shorter than the quote-free text, or empty |
| StackTrace.FrameOf | crash_reporter.py:107-108 | a frame is a non-empty word without spaces |
| StackTrace.ScanLine | crash_reporter.py:97-112 | a line adds at most its own frame, and starts the trace only when it is a marker line with its message field |
| StackTrace.TraceOf | crash_reporter.py:114-117 | `None` exactly when no frame was collected |
| StackTrace.ScanStep | crash_reporter.py:97-112 | one pass of the loop body computes `ScanLine` |
| StackTrace.GetStackTrace | crash_reporter.py:91-119 | the loop with its `break` gives the trace of the lines |
| StackTrace.ScanStopped | crash_reporter.py:103-104 | once the loop has hit its `break`, later lines change nothing |
| StackTrace.ScanLineStep | crash_reporter.py:99-110 | one line adds at most its frame and starts the trace only at a marker line with its message |
| StackTrace.ScanLinesStarted | crash_reporter.py:99-105 | the trace starts only at a marker line with its message field, and no frame comes before it |
| StackTrace.ScanLinesFrameFrom | crash_reporter.py:105-110 | every frame is the function name of some frame line |
| StackTrace.ScanLinesIdle | crash_reporter.py:96-110 | before any marker line with its message field the loop changes nothing |
| StackTrace.ScanLinesOpen | crash_reporter.py:99-104 | from the first marker line with its message field on, the loop stays open while no line is blank |
| StackTrace.ScanLinesKeepsFrames | crash_reporter.py:105-110 | a further line never takes a frame away |
| StackTrace.FrameCollected | crash_reporter.py:96-110 | conversely, every frame line after the first marker line with its message field, with no blank line between them, gives its function name as a frame |
| StackTrace.NoMarkerNoTrace | crash_reporter.py:99-117 | without a marker line carrying its message the result is `None` |
| StackTrace.FramesAreWords | crash_reporter.py:107-110 | no frame holds whitespace |
| StackTrace.TraceFramesRoundTrip | crash_reporter.py:114-115 | the frames are read back from a trace by splitting the text after the dashes at the arrows |
| FirstFind.FirstHitsDistinct | crash_reporter.py:185-186 | a target records each key at most once |
| FirstFind.FirstHitsFirst | crash_reporter.py:163-186 | a target records exactly the keys its files yield, each with the first file's value |
| FirstFind.Add | crash_reporter.py:187-191 | a new key starts at one run with one value; a known key gets one more run and one more value; only the key joins the key set, and every other key keeps its entry |
| FirstFind.RecordAt | crash_reporter.py:185-191 | one target changes each key's entry by its own first find only |
| FirstFind.ReportOfCounts | crash_reporter.py:156-191 | a key's `find_runs` is the number of targets that found it, its list their first finds in target order; an unfound key is absent |
| FirstFind.ReportOfConsistent | crash_reporter.py:187-191 | every entry has as many runs as values and never more runs than targets |
| FirstFind.RecordTarget | crash_reporter.py:163-191 | the bookkeeping loop enters each new key's first find once |
| FirstFind.EnterFind | crash_reporter.py:187-191 | the dictionary update computes `Add`, whose contract gives the new entry |
| EdgeSingleMain.SanitizeUnitTargets | crash_reporter.py:24-43 | a bad unit or target list exits; otherwise the configuration is kept (the same checks as patch_reporter.py's and data_avg_plotter.py's `sanitize_config`) |
| Reporter.ReportStart | crash_reporter.py:158-162 | a missing `entry_dirs` raises `KeyError`; a found start is never absent; without a stats file a given configured start is kept |
| Reporter.TargetFiles | crash_reporter.py:161-176 | every file carries the bin of its time from a given start; once the start is found the only error is `TypeError`; each file is visited once under its own path, unlike the as-written pattern loop (see Left out) |
| Reporter.VisitTarget | crash_reporter.py:158-176 | the steps of one target compute `TargetFiles`, so each file is visited once under its own path (see Left out) |
| Reporter.Command | crash_reporter.py:178 | the command is the template's pieces between `@@` marks joined with the path |
| Reporter.RunAllHalted | crash_reporter.py:158-191 | once a target has raised, later targets change nothing |
| Reporter.RunAllReports | crash_reporter.py:158-191 | the dictionary is the report of the targets before the first one that raises; the script finishes exactly when none does |
| Reporter.RunAllCounts | crash_reporter.py:155-191 | every entry has as many runs as values, `find_runs` counting the completed targets that found the key |
| Reporter.PatternVisits | crash_reporter.py:168-172 | the loop as written visits a file at most once per pattern |
| Reporter.PatternVisitsFirst | crash_reporter.py:168-172 | a file is visited at least once exactly when some pattern matches its name, first under its own path |
| Reporter.PatternsRevisit | crash_reporter.py:170-172 | two patterns matching every path make the loop visit `dir/dir/name`, which is not a listed file |
| CrashReport.CrashHits | crash_reporter.py:176-183 | one hit per visited file: the stack trace of its replay and its bin |
| CrashReport.CrashOutcomes | crash_reporter.py:158-191 | one outcome per target, in the order of the `targets` keys |
| CrashReport.CrashTargetFirstFinds | crash_reporter.py:163-191 | within a completed target, every trace some file gave is entered once, with the bin of its first file |
| CrashReport.CrashTraceCounts | crash_reporter.py:155-191 | `find_runs` equals the length of `times`, one bin per target that found the trace before the script stopped |
| CrashReport.CrashReportTarget | crash_reporter.py:158-191 | the replay loop of one target enters each new trace |
| CrashReport.ReplayFiles | crash_reporter.py:176-183 | the replay loop pairs every visited file, in order, with the stack trace of its replay |
| CrashReport.CrashReportMain | crash_reporter.py:135-191 | a bad configuration exits; otherwise the target loop, stopping at the first target that raises; files are visited as `TargetFiles` gives them (see Left out) |
| PatchReport.SortedListing | patch_reporter.py:137-138 | every listing sorted by name, same files |
| PatchReport.DirEntriesByPath | patch_reporter.py:136-148 | files listed in name order are visited in path order |
| PatchReport.PatchHits | patch_reporter.py:148-155 | one hit per visited file: its return code with its path and bin |
| PatchReport.PatchOutcomes | patch_reporter.py:129-166 | one outcome per target, in the order of the `targets` keys |
| PatchReport.PatchTargetFirstFinds | patch_reporter.py:134-166 | within a completed target, every visited file's code is entered once, with the first such file in visit order |
| PatchReport.PatchCodeCounts | patch_reporter.py:126-166 | `find_runs` equals the length of `ff_times`, one first file per target that found the code |
| PatchReport.PatchReportTarget | patch_reporter.py:129-166 | the replay loop of one target enters each new return code |
| PatchReport.ReplayFiles | patch_reporter.py:148-155 | the replay loop pairs every visited file, in order, with its return code |
| PatchReport.PatchReportMain | patch_reporter.py:106-166 | a bad configuration exits; otherwise the target loop, stopping at the first target that raises; files are visited as `TargetFiles` gives them (see Left out) |
| A12.Bins | a12_calculator.py:23 | the second components of the first-find pairs, in order |
| A12.Repeat | a12_calculator.py:28 | n copies of the value |
| A12.SanitizeTimes | a12_calculator.py:7-15 | more runs than `max_pop` exit; otherwise exactly `max_pop` values, sorted, a permutation of the input padded with `max_val` |
| A12.SanitizeFfTimes | a12_calculator.py:7-15 | the padding loop and the sort compute `SanitizeTimes` |
| A12.RowBounds | a12_calculator.py:39-44 | a row scores between 0 and twice its length, and with the reverse row exactly twice its length |
| A12.ScoreBounds | a12_calculator.py:37-57 | `0 <= numerator <= max_pop * max_pop`, and the reverse count is the rest of the pairs, as `a21 = 1 - a12` assumes |
| A12.ScoreAllSmaller | a12_calculator.py:37-45 | every first value below every second value gives `a12 = 1` |
| A12.ScoreAllTied | a12_calculator.py:37-45 | two constant, equal populations give `a12 = 0.5` |
| A12.Numerator | a12_calculator.py:37-44 | the nested loops compute twice the numerator |
| A12.Lookup | a12_calculator.py:27-30 | `None` exactly when no entry of the report has the key |
| A12.Populations | a12_calculator.py:23-31 | the first population is the key's sanitized `ff_times`; the second is the other report's sanitized `ff_times` for the key, or `max_pop` copies of `max_val` when it lacks the key; both have `max_pop` values; the exit happens exactly when either list is longer than `max_pop` |
| A12.CalculateStatisticsKeys | a12_calculator.py:18-63 | keys compared before are skipped, each key is appended at most once, and every comparison is of a new key with its numerator in range |
| A12.CalculateStatisticsLoop | a12_calculator.py:18-63 | the key loop computes the comparisons and the extended `compared_keys` |
| A12.CalculateStatisticsHalted | a12_calculator.py:8-10 | once `exit(1)` has been called, later keys change nothing |
| A12.A12MainNoRecompare | a12_calculator.py:84-85 | the reversed call compares only keys the first report lacks: each key's sanitized `ff_times` in the second report against `max_pop` copies of `max_val` |
| A12.StatisticsScores | a12_calculator.py:18-45 | every logged score is twice the numerator of its key's populations: the key's `ff_times` in the first report against the second report's or the padding |
| A12.LookupSnoc | a12_calculator.py:27 | `report_key in report_2` and its entry, for a report with one more key: an earlier entry wins |
| AvgRows.ParseRow | data_avg_plotter.py:129-134 | a row gives its value exactly when it has two integer fields and its bin is the line's position plus one |
| AvgRows.ParseFormattedRow | data_avg_plotter.py:129-134 | a row as the gap fillers write it is read back as its value |
| AvgRows.ParsedLines | data_avg_plotter.py:128-134 | one parse per line |
| AvgRows.Column | data_avg_plotter.py:124-141 | a read column has one value per line |
| AvgRows.ColumnOk | data_avg_plotter.py:128-141 | a column is read exactly when every line gives a value and a later file is not longer than the first |
| AvgRows.FileColumnOk | data_avg_plotter.py:128-141 | a file is accepted exactly when line i carries bin i + 1 and, after the first file, it is no longer than the first |
| AvgRows.FileColumnRoundTrip | data_avg_plotter.py:128-135 | the rows the gap fillers write for a column are read back as that column |
| AvgRows.Sums | data_avg_plotter.py:138-141 | as long as the first column, each entry the sum of every column's value there |
| AvgRows.Columns | data_avg_plotter.py:124-142 | an accepted target has one column per file, each as long as its file, and no later file longer than the first |
| AvgRows.ColumnsOk | data_avg_plotter.py:124-142 | a target's files are accepted exactly when each is, file k's column being what its lines give |
| AvgRows.TargetColumnsOk | data_avg_plotter.py:124-142 | a target is accepted exactly when each file is, the first unbounded, later ones bounded by its length |
| AvgRows.ScanFile | data_avg_plotter.py:126-142 | the line loop of one file gives its column and the updated `accumulates` |
| AvgRows.FileColumnHalted | data_avg_plotter.py:128-134 | once a line has failed, later lines change nothing |
| AvgRows.ColumnsHalted | data_avg_plotter.py:124-142 | once a file has failed, later files change nothing |
| AvgRows.AccumulateTarget | data_avg_plotter.py:116-142 | the file loop gives the columns and their sums |
| AvgPlot.ReadAll | data_avg_plotter.py:124-127 | the lines of every data file, in order |
| AvgPlot.Pick | data_avg_plotter.py:148-149 | the smaller or the larger value |
| AvgPlot.Elementwise | data_avg_plotter.py:148-149 | `np.minimum`/`np.maximum`: equal lengths pair up, a length-1 list broadcasts, other mismatches raise `ValueError` |
| AvgPlot.ExtremesBound | data_avg_plotter.py:144-149 | with equal lengths, `mins` is at most and `maxes` at least every column there, each attained by a column or the start |
| AvgPlot.ComputeExtremes | data_avg_plotter.py:144-149 | the `mins`/`maxes` loop computes `Extremes` |
| AvgPlot.ExtremesHalted | data_avg_plotter.py:146-149 | once `np.minimum` or `np.maximum` has raised, later columns change nothing |
| AvgPlot.TargetColumnsLengths | data_avg_plotter.py:124-142 | an accepted target has one column per file, each as long as its file |
| AvgPlot.TargetSummary | data_avg_plotter.py:116-158 | one sane target's columns, sums and, for the range band, `mins` and `maxes`; `avgs[-1]` raises on an empty first file |
| AvgPlot.EmptyFirstFile | data_avg_plotter.py:155-156 | a target whose first file is empty fails in the two scripts that read `avgs[-1]` |
| AvgPlot.DataRange | data_avg_plotter.py:144-152 | a stored target's `mins[i]` and `maxes[i]` bound every file's i-th value, each attained by some file |
| AvgPlot.Store | data_avg_plotter.py:109-158 | an insane target is skipped, a sane one's summary stored under its name |
| AvgPlot.SummariesKeys | data_avg_plotter.py:109-158 | when the loop completes, the stored names are exactly those of the sane targets |
| AvgPlot.SummariesLast | data_avg_plotter.py:151-158 | the summary stored under a name is that of the last sane target of that name |
| AvgPlot.SummariesHalted | data_avg_plotter.py:109-158 | once a target has raised, later targets change nothing |
| AvgPlot.SummarizeTargets | data_avg_plotter.py:109-158 | the target loop computes `Summaries` |
| AvgPlot.SummarizeTarget | data_avg_plotter.py:116-158 | the file loop, the extremes loop and `avgs[-1]` compute `TargetSummary` |
| AvgPlot.PlotLength | data_avg_plotter.py:181-185 | the length, cut to the limit when that is smaller |
| AvgPlot.PlotPoints | data_avg_plotter.py:187-192 | one point per bin; crash_avg_plotter.py's x values are one-based and complete, the others' start at the second bin |
| AvgPlot.PlotTarget | data_avg_plotter.py:177-219 | a stored target's curve of averages and, for data_avg_plotter.py, its band |
| AvgPlot.PlotAll | data_avg_plotter.py:172-219 | one curve per stored target, in ascending name order |
| AvgPlot.AvgMain | data_avg_plotter.py:82-219 | a bad configuration exits, the loop may raise, and otherwise one curve per stored target in name order |
| Leader.GridOf | leader_plotter.py:86-95 | the values each tool logged for each target, as read |
| Leader.MaxVal | leader_plotter.py:102-105 | `max_val` is never negative, as it starts at 0 |
| Leader.MaxValBounds | leader_plotter.py:102-105 | `max_val` bounds every tool's value and is 0 or attained |
| Leader.Credit | leader_plotter.py:106-108 | 1 exactly when the tool holds `max_val` |
| Leader.Lead | leader_plotter.py:100-108 | a tool leads for at most every target |
| Leader.Leads | leader_plotter.py:97-108 | the lead lists, one per tool of `lines_no` entries; a missing file raises `KeyError`, a short one `IndexError` |
| Leader.LeadCounts | leader_plotter.py:100-108 | a tool leads for all targets exactly when it holds `max_val` for each, for none exactly when it holds it for none |
| Leader.TotalLeadIsWinners | leader_plotter.py:100-108 | the total lead at an index is the number of (target, leading tool) pairs |
| Leader.LeadsCoverTargets | leader_plotter.py:100-108 | with no negative value at an index, the leads add up to at least the number of targets |
| Leader.NoLeadBelowZero | leader_plotter.py:102-108 | when every value at an index is negative, no tool leads there |
| Leader.LeadsBounded | leader_plotter.py:97-108 | every lead lies between 0 and the number of targets |
| Leader.LeadsSumAtLeastTargets | leader_plotter.py:100-108 | with no negative value, the leads at an index add up to at least the number of targets |
| Leader.Put | leader_plotter.py:88-94 | the tool's entry for the target holds the file's values afterwards |
| Leader.PutKeeps | leader_plotter.py:88-94 | storing a file keeps every other tool's and target's entry |
| Leader.ReadTable | leader_plotter.py:86-95 | the reading loop gives the table of every tool and target and `lines_no`, or `KeyError` for a missing file |
| Leader.MaxAt | leader_plotter.py:102-105 | the `max_val` loop computes `MaxVal`, or `IndexError` for a short file |
| Leader.CreditAt | leader_plotter.py:106-108 | the crediting loop gives a lead to every tool holding `max_val` |
| Leader.CountIndex | leader_plotter.py:101-108 | one index of the counting loop credits every target's leaders |
| Leader.LeaderMain | leader_plotter.py:86-108 | the reading and counting loops compute `Leads` |
| Leader.LeadsOk | leader_plotter.py:97-108 | counting that completes gives one list per tool whose entries are the leads |
| CycleScan.AddRecord | fot_stat/fot_stat.py:87-97 | the record's rank gains its sets and its value; other ranks untouched |
| CycleScan.GroupOfLookup | fot_stat/fot_stat.py:87-97 | a rank has an entry exactly when some record has it; its sets are the unions over those records and its list their values in file order |
| CycleScan.GroupOfTotal | fot_stat/fot_stat.py:87-97 | a cycle's values number its records |
| CycleScan.GroupFromDistinct | fot_stat/fot_stat.py:87-97 | a cycle's ranks are distinct |
| CycleScan.GroupOfEntries | fot_stat/fot_stat.py:87-97 | every rank holds the values of exactly its records, so none is empty |
| CycleScan.ShareBound | fot_stat/fot_stat.py:140-152 | every rank's sets lie within the cycle's unions, so each ratio is at most 1 |
| CycleScan.UnionEdges | fot_stat/fot_stat.py:140-142 | the loop gives the union of the ranks' edge sets |
| CycleScan.UnionFuncs | fot_stat/fot_stat.py:147-149 | the loop gives the union of the ranks' function sets |
| CycleScan.HeaderKey | fot_stat/fot_stat.py:68 | `IndexError` exactly when the line holds no '-' |
| CycleScan.HeaderKeyOf | fot_stat/fot_stat.py:68 | the key is the text between the first and second '-', trailing whitespace removed |
| CycleScan.ScanWell | fot_stat/fot_stat.py:66-97 | a completed scan keeps its invariant, so the only `KeyError` is a record before any header |
| CycleScan.ScanHalted | fot_stat/fot_stat.py:66-97 | once a line raises, the loop stays stopped with that error |
| CycleScan.RecordBeforeHeader | fot_stat/fot_stat.py:65-97 | a decodable record before any header raises `KeyError` |
| CycleScan.RecordStep | fot_stat/fot_stat.py:76-97 | a decodable record enters the current cycle |
| CycleScan.ScanRecords | fot_stat/fot_stat.py:74-97 | record lines after a header enter that cycle one by one and change nothing else |
| CycleScan.CycleSegment | fot_stat/fot_stat.py:66-97 | a header followed by records leaves that cycle holding the grouping of those records, others unchanged |
| CycleScan.ScanFile | fot_stat/fot_stat.py:65-97 | the line loop computes the scan of the lines |
| CycleScan.Basenames | fot_stat/fot_stat.py:36 | one basename per path, in order |
| CycleScan.SharesBasenameIff | fot_stat/fot_stat.py:36-41 | the input is rejected exactly when two paths share a basename |
| FotRun.CyclesOf | fot_stat/fot_stat.py:138-167 | every cycle's statistics in cycle order, or the first failing cycle's error |
| FotRun.CyclesOfOk | fot_stat/fot_stat.py:138-167 | a file completes exactly when every cycle's statistics succeed |
| FotRun.CyclesHalted | fot_stat/fot_stat.py:138-167 | once a cycle raises, the loop over cycles stays stopped |
| FotRun.RunHalted | fot_stat/fot_stat.py:43-172 | once a file raises, the loop over inputs stays stopped |
| FotRun.Existing | fot_stat/fot_stat.py:43-46 | every kept path is an input that exists |
| FotRun.RunFilesWritten | fot_stat/fot_stat.py:43-172 | a run without error wrote one result per existing input, in input order, each that file's statistics |
| FotRun.RunFilesComplete | fot-stat/fot-stat.py:43-45 | a run that may not skip missing inputs ends without error only when all exist |
| FotStat.RankStats | fot_stat/fot_stat.py:144-160 | one entry per rank: the sizes of its sets, the `sum_of_list` of each of its six value lists, and its number of records |
| FotStat.SumValuesAppend | fot_stat/fot_stat.py:14-15 | the left-to-right `reduce` sum splits over any division of the list |
| FotStat.SumOfRankValues | fot_stat/fot_stat.py:153-157 | the sum of a rank's value list equals the sum of that rank's records, taken record by record |
| FotStat.CycleResult | fot_stat/fot_stat.py:138-161 | raises exactly when a union is empty: `TypeError` for a cycle without ranks, `ZeroDivisionError` otherwise |
| FotStat.RecordSumTotal | fot_stat/fot_stat.py:161 | `count` is the number of values the cycle holds |
| FotStat.CycleCounts | fot_stat/fot_stat.py:153-161 | `rank_nums` counts each rank's records, each rank's value sums are its records' sums, `count` counts all records, each set lies within its union, and `TypeError` exactly when there are none |
| FotStat.CycleStatsOf | fot_stat/fot_stat.py:138-161 | the union loops and the counts compute `CycleResult` |
| FotStat.FileCycles | fot_stat/fot_stat.py:138-167 | the loop over a file's cycles computes `CyclesOf` |
| FotStat.Stats | fot_stat/fot_stat.py:36-172 | shared basenames exit, missing files are skipped, every other file's cycles are written |
| FotStat.StatsOutcome | fot_stat/fot_stat.py:36-172 | shared basenames exit before any read; otherwise a completed run wrote every existing input's statistics, in order |
| FotBlocks.RankTimesOf | fot-stat/fot-stat.py:104-112 | one entry per rank |
| FotBlocks.BlockResult | fot-stat/fot-stat.py:98-112 | an empty union with ranks raises `ZeroDivisionError`; `TypeError` only for a rank without times |
| FotBlocks.RankEntries | fot-stat/fot-stat.py:75-82 | every rank holds the times of exactly its records, and its sets lie within the unions |
| FotBlocks.BlockRaises | fot-stat/fot-stat.py:98-112 | a cycle of records raises only `ZeroDivisionError`, exactly when it has records but an empty union |
| FotBlocks.BlockTimes | fot-stat/fot-stat.py:112 | each rank's average is over the times of exactly its records, in file order |
| FotBlocks.BlockStatsOf | fot-stat/fot-stat.py:98-112 | the union loops and comprehensions compute `BlockResult` |
| FotBlocks.FileCycles | fot-stat/fot-stat.py:98-112 | the loop over a file's cycles computes `CyclesOf` |
| FotBlocks.Stats | fot-stat/fot-stat.py:36-117 | as written: shared basenames exit, a missing file raises `NameError`, every other file's cycles are written |
| FotBlocks.MissingFileRaises | fot-stat/fot-stat.py:44-45 | a missing input ends the script with `NameError`, keeping what earlier inputs wrote |
| FotBlocks.StatsIntended | fot-stat/fot-stat.py:43-117 | with the warning working, a completed run wrote every existing input's statistics, in order |
| FotBlocks.StatsComplete | fot-stat/fot-stat.py:43-117 | as written, a run without error had every input present and wrote all of them |
| StatAvg.StoI | fot_stat/stat_avg.py:13-19 | the only error is `ValueError` |
| StatAvg.StoIOfInt | fot_stat/stat_avg.py:13-19 | the text of a rank reads back as that rank |
| StatAvg.RankSet | fot_stat/stat_avg.py:108-109 | the ranks of a dictionary's keys, or the first key's `ValueError` |
| StatAvg.RankSets | fot_stat/stat_avg.py:108-109 | one rank set per file, in order |
| StatAvg.Intersection | fot_stat/stat_avg.py:108-109 | the ranks every set has, or the first set's error |
| StatAvg.Common | fot_stat/stat_avg.py:105-109 | the ranks shared by every file's dictionary of the cycle |
| StatAvg.FirstSentinel | fot_stat/stat_avg.py:110-116 | the first sentinel's index, or the length when there is none |
| StatAvg.Renamed | fot_stat/stat_avg.py:110-116 | one key per rank |
| StatAvg.RenamedOnce | fot_stat/stat_avg.py:108-116 | at most one rank is renamed, `count` when both sentinels are shared, leaving `average` as -1 |
| StatAvg.SumFor | fot_stat/stat_avg.py:117-120 | the sum of the key's values over the files, or `KeyError` for a file without it |
| StatAvg.SumsOf | fot_stat/stat_avg.py:117-121 | the sum of each given rank, in order, or the first missing rank's error |
| StatAvg.CanonicalBoth | fot_stat/stat_avg.py:110-120 | with both sentinels shared, `-1` is looked up as `"-1"`, which no dictionary of fot_stat.py has |
| StatAvg.CanonicalSums | fot_stat/stat_avg.py:108-121 | for fot_stat.py's dictionaries, the sums fail exactly when both sentinels are shared |
| StatAvg.SingleSummarySums | fot_stat/fot_stat.py:159-167 | fot_stat.py writes `average` or `count`, never both, so the sums of its cycles never raise |
| StatAvg.CycleOrder | fot_stat/stat_avg.py:101 | succeeds exactly when every cycle name is an integer; otherwise `ValueError` |
| StatAvg.CycleOrderSorted | fot_stat/stat_avg.py:101 | the cycles come out in ascending cycle number, each once |
| StatAvg.SumList | fot_stat/stat_avg.py:105 | the cycle's dictionary from each file, or `KeyError` |
| StatAvg.EachKey | fot_stat/stat_avg.py:103-121 | each key with its result, in order, or the first failing key's error |
| StatAvg.EmptyTable | fot_stat/stat_avg.py:96-98 | holds exactly `result_dict`'s statistics |
| StatAvg.ParamResult | fot_stat/stat_avg.py:100-121 | the table keeps its statistics, and a statistic with cycles must be one of them |
| StatAvg.TableKeys | fot_stat/stat_avg.py:96-121 | a completed table keeps `result_dict`'s statistics, and every statistic with cycles is one of them |
| StatAvg.TableEntries | fot_stat/stat_avg.py:100-121 | a completed table holds, per statistic, its cycles in ascending order, each with its averaged ranks |
| StatAvg.Loaded | fot_stat/stat_avg.py:82-88 | the data files that load, in order |
| StatAvg.TargetOutcome | fot_stat/stat_avg.py:75-124 | a target is written exactly when it is sane, some file loads and its table is built |
| StatAvg.RunTargetsOutcome | fot_stat/stat_avg.py:72-124 | the run ends without error exactly when no target raises, and then wrote every target's output in order |
| StatAvg.AvgMain | fot_stat/stat_avg.py:67-124 | a missing or empty `targets` exits before any target is read |
| StatAvg.RenameFirstSentinel | fot_stat/stat_avg.py:110-116 | the rename loop computes `Renamed` |
| StatAvg.SumRanks | fot_stat/stat_avg.py:117-121 | the summing loops compute `SumsOf` |
| StatAvg.AverageCycle | fot_stat/stat_avg.py:104-121 | one cycle as computed gives its sums |
| StatAvg.AverageParam | fot_stat/stat_avg.py:100-121 | one statistic as computed gives `ParamResult` |
| StatAvg.AverageCycles | fot_stat/stat_avg.py:103-121 | the cycle loop of one statistic computes `ParamCycles`: every cycle's sums in the given order, or the first failing cycle's error |
| StatAvg.AverageTable | fot_stat/stat_avg.py:96-121 | a target's table as computed |
| StatAvg.LoadInputs | fot_stat/stat_avg.py:82-92 | the loading loop gives the files that load |
| StatAvg.AverageTarget | fot_stat/stat_avg.py:73-124 | one target as written gives `TargetResult`: skipped unless it is sane and some data file loads, otherwise the table averaged over the loaded files |
| StatAvg.AverageAll | fot_stat/stat_avg.py:65-124 | `main` as written computes `AvgMain` |
| PyText.LStrip | crash_reporter.py:103 | leading whitespace dropped and nothing else |
| PyText.RStrip | fot_stat/fot_stat.py:68 | trailing whitespace dropped and nothing else |
| PyText.Tokens | crash_reporter.py:108 | every word is non-empty |
| PyText.TokensHaveNoSpace | crash_reporter.py:107-108 | no word holds whitespace |
| PyText.SplitOn | edge_coverage/single.py:444 | a split has at least one piece |
| PyText.JoinSplitOn | crash_reporter.py:115 | joining a split with its separator gives the text back |
| PyText.SplitOnJoin | crash_reporter.py:115 | splitting a join gives the pieces back when no piece holds the separator's first character |
| PyText.ContainsIffOccurs | crash_reporter.py:99 | `pat in s` exactly when `pat` occurs at some position |
| PyText.RemoveAll | crash_reporter.py:98 | no occurrence of the character remains, and the text does not grow |
| PyText.ReplaceJoinsSplit | edge_coverage/single.py:433 | `s.replace(pat, rep) == rep.join(s.split(pat))` |
| PyText.ReplaceAbsent | edge_coverage/single.py:433 | a text without the pattern is unchanged |
| PyText.ParseIntToString | fot_stat/stat_avg.py:120 | `int(str(n)) == n`, also with a trailing newline |
| PyText.NatToString | fot_stat/stat_avg.py:120 | a non-empty string of digits |
| PyText.Basename | fot_stat/fot_stat.py:36 | the text after the last '/', which holds no '/' |
| PyText.Lower | edge_coverage/single.py:603 | ASCII letters lowered, every other character kept, same length |
| Sorting.SortBy | edge_coverage/single.py:397 | a permutation ordered by key |
| Sorting.InsertBySorted | edge_coverage/single.py:397 | inserting into a sorted sequence keeps it sorted |
| Sorting.WithKeyInsert | edge_coverage/single.py:397 | inserting into a sorted sequence places the element after every element with the same key |
| Sorting.SortByStable | edge_coverage/single.py:397 | the sort is stable: the elements with any one key keep their input order |
| Sorting.SortByName | patch_reporter.py:138 | `list.sort()` on names: a permutation in code-point order |
| Sorting.SortedNames | crash/main.py:181-182 | `sorted` of distinct names: every name once, ascending |
| Sorting.MinOf | edge_coverage/single.py:97 | `min` is in the set and below every element |
| Sorting.SortedInts | fot_stat/stat_avg.py:108 | every element once, ascending |
| Dicts.Assign | fot_stat/fot_stat.py:69-70 | an existing key keeps its place and a new one goes last |
| Dicts.AssignLookup | fot_stat/fot_stat.py:69-70 | after `d[k] = v`, `k` maps to `v` and every other key as before |

## Left out

- Threads: the workers of edge_coverage/single.py run one after another. Each worker touches
  only its own dictionaries until the join, so the merged result does not depend on the
  interleaving.
- `subprocess`, showmap and the sanitizer replays are function parameters. They map a
  command or path to its output lines, its return code or its stderr.
- The file system is an input: directory listings, modification times, stats files and file
  contents. File open errors are not modelled.
- `re.fullmatch` and `re.search` are an uninterpreted `NameMatch` predicate.
- All plotting (matplotlib) is left out; only the rows a figure would be drawn from are
  modelled.
- Floating point is left out. The coverage ratios and their `round`, the A12 division and
  `a21`, and stat_avg.py's division by `count` are kept as the integer sums and counts they
  are computed from. fot_stat.py's per-rank averages (lines 153-157) are kept as their
  numerators (FotStat.RankStat's six sums) and denominators (its record count).
- fot_stat.py's `average` entries (lines 163-167) are not modelled. They add up the rounded
  per-rank averages times the record counts, so they depend on the float rounding left out
  above.
- Leader.GridOf: leader_plotter.py's `float()` of each line is modelled as an integer value.
  A line that `float()` cannot read raises `ValueError` in the script; the model cannot
  express that error.
- JSON loading and dumping are parameters that yield decoded values or an error. Duplicate
  JSON keys are not modelled.
- Command-line parsing (argparse) and reading the configuration file are left out.
- PyText.ParseInt: Python `int()` with underscores or non-ASCII digits is not modelled.
- `sanitize_config` key checks that only log and exit are kept as an `Err` outcome; the
  individual log messages are left out.
- leader_plotter.py's `sanitize_config` is not modelled. The model starts from its tools and
  targets.
- FotStat.Values: fot_stat.py's six per-record value dictionaries are collapsed into one
  record per value. Their sums are kept; the float division into averages is left out above.
- FotBlocks.Decode: fot-stat.py's `rank` is taken as an already decoded integer.
- Output-directory checks and their `rmtree`/`makedirs`, output file names built with
  `splitext`, and the final `json.dump` of the reporters (including `avg_time`) are left out.
- StatAvg.CycleOrder: the order among cycle keys with equal `int()` values (such as "5" and
  "05") is not pinned.
- entry_time_plotter.py is not part of this model.
- report_config_regulator.py, avg_exec_speed.py and avg_file_size.py are not part of this model.
- common_utils.py is not part of this model: logging only.
- edge_coverage/data_collector.py, crash/data_collector.py and crash/crash_time_plotter.py
  are modelled only through GapFill and Passes, with the fail-fast policy they share.
- CrashMain.CrashScript: the rows of each `_crash_time.txt` file cover the corrected span
  `CrashMaxBinHours` (`max_span` hours in bins of the unit), not crash/main.py:195's
  `int(max_span) * bucket_margin` (`CrashMaxBin`); the as-written span is kept only in
  CrashMain.CrashSpanMismatch, as the crash/main.py:195 finding below says.
- Reporter.TargetFiles: each file is visited once, under its own path. The pattern loops
  at crash_reporter.py:168-176 and patch_reporter.py:140-146 have no `break` and rebind the
  file name, so a second matching pattern visits `dir/dir/name`, where `os.stat` raises;
  that loop is modelled only by Reporter.PatternVisits and Reporter.PatternsRevisit.
  Reporter.VisitTarget, CrashReport.CrashReportMain and PatchReport.PatchReportMain inherit
  this.
- A12.Populations: a `max_pop` of 0 is accepted and gives empty populations, where
  a12_calculator.py:38-45 would raise `ZeroDivisionError`. Both `max_pop` and `max_val` are
  taken as integers (the defaults at a12_calculator.py:70-71). A value given on the command
  line stays a string there, since neither option has `type=int`, and the comparison at
  line 8 then raises `TypeError`; that path is not modelled. A12.A12Main inherits both.
- Corpus.MatchFile: after a rejected entry the later patterns are matched against the
  file's name. At edge_coverage/single.py:381-390 the name has already been rebound to
  `dir/name` when the loop continues. The later patterns are then matched against that
  path, and one that matches makes `os.stat` (single.py:383) raise on `dir/dir/name`.
  Rejection needs a negative `bin_limit` (single.py:370, from a negative `max_span`), since
  entries there start in bin 0. The model skips the file instead; Corpus.CollectDir,
  Corpus.CollectEntries and the edge_coverage/single.py target loop inherit this.

## Findings

| source | as written | input that shows it | evidently intended | confidence | as-written member | corrected member |
|---|---|---|---|---|---|---|
| edge_coverage/main.py:177 | calls `plot_edge_over_time` with five arguments; edge_time_plotter.py:11 takes seven, assuming entry_time_plotter.py, star-imported after it at main.py:16 and not part of this model, does not rebind that name | any configuration whose target loop completes: the call raises `TypeError` | pass the figure's file name and title, as edge_coverage/single.py:693 does | not executed | EdgeMain.MainNeverFinishes | EdgeMain.MainPlotted |
| crash/main.py:195 | `max_bin = int(max_span) * bucket_margin` with the margin still in seconds per bin | `bucket` "hour", `max_span` 24: 86400 rows of hour bins instead of 24 | swap the margin to bins per hour first, as edge_coverage/single.py:687-690 does | not executed | CrashMain.CrashSpanMismatch | CrashMain.CrashMaxBinHours |
| crash_reporter.py:170-172 | the pattern loop has no `break` and rebinds `crash_file` to the joined path; edge_coverage/single.py:381-390 rebinds `entry_file` the same way before its `continue` | patterns `.*` and `.*`, file `a` in directory `d`: `d/a` is visited, then `d/d/a`, which does not exist | visit each file once under its own path, as crash/main.py's pattern loop does | not executed | Reporter.PatternsRevisit | Corpus.MatchFile |
| fot-stat/fot-stat.py:45 | the warning for a missing input formats the undefined name `path` | one input path that is not a file: `NameError` ends the script | warn and skip the input, as fot_stat/fot_stat.py:44-45 does | not executed | FotBlocks.MissingFileRaises | FotBlocks.StatsIntended |
