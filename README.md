# Phantom quality-control metric tables

This project models the metric-table engine of two phantom
quality-control scripts. It proves properties of that model in Dafny.

- `Preprocess_Phantom_T1.py` builds the **coil-check table**. For each
  session date there is one row. For each of the 32 receive coils the
  row holds the coil image's centre of mass and its share of the
  session's total signal. The table is rebuilt from every file, or
  extended with the files dated before its first row or after its last
  row. From the table the script derives the **anomaly summary**:
  - a trailing rolling median over five sessions;
  - for every session, the largest centre-of-mass deviation over the
    coils, the largest signal-proportion deviation, and the coil with the
    largest centre-of-mass deviation;
  - the first four sessions dropped.
- `Preprocess_Phantom_fMRI.py` builds the **functional stability table**.
  For each session date it holds:
  - the tSNR averaged over the nonzero voxels of a 20×20×10 region
    around the rounded tSNR centroid. The script cuts that region with
    slices, which select nothing near the low edge of an axis. The model
    stores the tSNR of the box cut at the volume's edge instead, and
    proves that both agree whenever the box fits (see Findings);
  - the ghost-to-signal ratio, with the ghost region found by rolling a
    25 %-of-maximum foreground mask by half the volume along axis 1;
  - the transmitter reference amplitude read from the sidecar;
  - the largest displacement between the centroids of any two frames.

  The table is rebuilt from every file, or extended like the coil-check
  table. During a rebuild, a session whose timeseries plot already exists
  is meant to be computed from its stored maps. As written, the test for
  that plot raises `TypeError` on the first file, so a rebuild from any
  file fails (see Findings). The model keeps that failing rebuild beside
  the corrected one.

## Modules

| module | file | contents |
|---|---|---|
| `Outcomes` | `outcomes.dfy` | NaN as `Option.None`; raised exceptions as `Result.Err` with the failure kind (an empty table, a failed computation, a missing sidecar key, or a call with the wrong arguments) |
| `Stats` | `stats.dfy` | sums, numpy `mean` and `median` (sorting by insertion) |
| `Volumes` | `volumes.dfy` | 3-D grids, `center_of_mass`, `amax`, boolean selection, `nonzero`, Python `round` |
| `Sessions` | `sessions.dfy` | dated files and tables, the strict date filters, the one-row-per-date frame, `sort_index`, append-then-sort, the per-file metric loop |
| `CoilCheck` | `coilcheck.dfy` | coil labels, the frame fill loop, proportion normalisation, rebuild and extend of the coil-check table |
| `Anomaly` | `anomaly.dfy` | rolling median, deviations, running maxima with `>=`, warm-up drop |
| `Ghosting` | `ghosting.dfy` | `np.roll` on axis 1, the 0/1/2 labelling, `gsr` |
| `Stability` | `stability.dfy` | foreground mask, ROI, tSNR, centroid displacement |
| `FuncTable` | `functable.dfy` | per-session metrics (fresh and cached branches), rebuild and extend of the functional table |

Conventions used throughout:

- A session date `yyyymmdd` is an `int`, so integer order is calendar
  order.
- Square roots are never taken. `max_dev` and `max_displacement` are
  kept squared, which picks the same maxima because the square root is
  monotone. `sqrt(d*d)*100` is `|d|*100`.
- Python's `round` is round-half-to-even.
- The coil reported by the anomaly summary is the **last** coil in
  `01`..`32` order attaining the maximum, because the comparison at
  `Preprocess_Phantom_T1.py:248` is `>=`; a strict `>` would report the
  first.

## Model

| member | source | states |
|---|---|---|
| `Outcomes.AllPresent` | Preprocess_Phantom_T1.py:237 | a window has values exactly when none of its cells is NaN, and then they are its cells in order |
| `Stats.Mean` | Preprocess_Phantom_fMRI.py:79 | the mean is NaN exactly for an empty array; otherwise the mean times the count is the sum |
| `Stats.MeanOfConstant` | Preprocess_Phantom_fMRI.py:79 | the mean of equal values is that value |
| `Stats.MeanBetween` | Preprocess_Phantom_fMRI.py:138 | a mean lies between any lower and upper bound of the values averaged |
| `Stats.Sort` | Preprocess_Phantom_fMRI.py:80 | the sorted copy is ascending and a permutation of the input |
| `Stats.Insert` | Preprocess_Phantom_fMRI.py:80 | inserting into an ascending sequence keeps it ascending and adds exactly that value |
| `Stats.MedianWithinRange` | Preprocess_Phantom_fMRI.py:80 | a nonempty array has a median, and it lies between two of its values |
| `Stats.MedianOfConstant` | Preprocess_Phantom_T1.py:237 | the median of equal values is that value |
| `Volumes.CenterOfOneVoxel` | Preprocess_Phantom_T1.py:27 | the centre of mass of a volume whose only nonzero voxel is (i, j, k) is (i, j, k) |
| `Volumes.InFlatten` | Preprocess_Phantom_fMRI.py:102 | a value occurs in the flattened volume exactly when some voxel holds it |
| `Volumes.InSelect` | Preprocess_Phantom_fMRI.py:79 | `epi_data[labels == tag]` holds exactly the values of the voxels carrying `tag` |
| `Volumes.PickNonZero` | Preprocess_Phantom_fMRI.py:138 | `x[np.nonzero(x)]` holds exactly the nonzero values |
| `Volumes.MaxOf` | Preprocess_Phantom_fMRI.py:116 | the maximum of a nonempty array is one of its values and bounds all of them |
| `Volumes.Max3` | Preprocess_Phantom_fMRI.py:102 | `np.amax` fails on an empty volume; otherwise it is a voxel's value and no voxel exceeds it |
| `Volumes.RoundHalfEven` | Preprocess_Phantom_fMRI.py:98-100 | the rounded centroid coordinate is within one half of the coordinate, and a tie goes to the even integer |
| `Sessions.KeepMembers` | Preprocess_Phantom_T1.py:37-55 | a date filter keeps exactly the files strictly after (or strictly before) the date; files on the date itself are dropped |
| `Sessions.KeepAll` | Preprocess_Phantom_T1.py:37-45 | when every file passes the filter, the filter returns the list unchanged |
| `Sessions.KeepNone` | Preprocess_Phantom_T1.py:47-55 | when no file passes the filter, it returns nothing |
| `Sessions.Filter` | Preprocess_Phantom_fMRI.py:156-174 | the filter loop returns the kept files in their original order, and exactly those whose date passes |
| `Sessions.FrameOf` | Preprocess_Phantom_T1.py:103-113 | the frame being filled has exactly one row per distinct session date |
| `Sessions.FrameOfLast` | Preprocess_Phantom_fMRI.py:198-201 | when several results share a date, the row holds the last one written |
| `Sessions.FrameOfAscending` | Preprocess_Phantom_T1.py:185 | a table with distinct dates has as many date entries as rows, each holding that row |
| `Sessions.SortIndex` | Preprocess_Phantom_T1.py:131 | `sort_index` yields rows in strictly ascending date order, one per key, each holding that key's record, and misses no key |
| `Sessions.DatesOfSortIndex` | Preprocess_Phantom_T1.py:131 | the sorted table's dates are exactly the frame's index |
| `Sessions.InSortIndex` | Preprocess_Phantom_T1.py:131 | a row is in the sorted table exactly when the frame maps its date to its record |
| `Sessions.AscendingUnique` | Preprocess_Phantom_T1.py:186 | two sorted tables with the same rows are the same table |
| `Sessions.InFrame` | Preprocess_Phantom_T1.py:185 | a sorted table contains a row exactly when its frame maps the row's date to the row's record |
| `Sessions.FrameOfSortIndex` | Preprocess_Phantom_T1.py:131 | reading a sorted frame back into a frame gives the frame itself |
| `Sessions.SortIndexOfFrame` | Preprocess_Phantom_T1.py:186 | sorting a table that is already sorted gives it back |
| `Sessions.IncomingOutside` | Preprocess_Phantom_T1.py:148-153 | the files an update reads are exactly the files dated strictly before the first row or strictly after the last row |
| `Sessions.IncomingEmpty` | Preprocess_Phantom_T1.py:148-153 | when the table's range covers every file, an update reads no file |
| `Sessions.AppendSortKeeps` | Preprocess_Phantom_T1.py:185-186 | appending rows dated outside the range and sorting keeps every old row, adds every new date once, and leaves the table sorted with the sum of the sizes |
| `Sessions.AppendSortRows` | Preprocess_Phantom_fMRI.py:264-265 | after append and sort, every row is an old row or a new date's record |
| `Sessions.AppendNothing` | Preprocess_Phantom_fMRI.py:264-265 | appending no row and sorting leaves a sorted table unchanged |
| `Sessions.MergeIncoming` | Preprocess_Phantom_T1.py:147-186 | merging one row per date of the files read extends the table: it stays sorted, every old row is kept, its dates are exactly the old dates plus the dates of the files read, every row that is not an old one lies outside the old range, and the new range covers every file |
| `Sessions.MergeCovers` | Preprocess_Phantom_T1.py:147-186 | after the merge, the table's range covers every file on disk |
| `Sessions.Gather` | Preprocess_Phantom_fMRI.py:255-262 | a successful metric loop yields one row per file, in file order, holding that file's metrics |
| `Sessions.GatherError` | Preprocess_Phantom_fMRI.py:255-262 | the loop fails exactly when some file's metrics fail, with the error of the first failing file |
| `Sessions.GatherStops` | Preprocess_Phantom_fMRI.py:255-262 | once a file has failed, the files after it do not change the outcome |
| `Sessions.GatherDates` | Preprocess_Phantom_fMRI.py:195-233 | a successful loop writes exactly the dates of the files |
| `Sessions.LastIndex` | Preprocess_Phantom_fMRI.py:195-233 | finds the last file of a date, or reports that no file has that date |
| `Sessions.GatherLast` | Preprocess_Phantom_fMRI.py:195-233 | each date's row holds the metrics of the last file of that date |
| `Sessions.GatherSorted` | Preprocess_Phantom_fMRI.py:234 | the sorted table has one row per file date, in date order, each holding the last file's metrics |
| `Sessions.GatherAll` | Preprocess_Phantom_fMRI.py:255-262 | the imperative loop fills the frame with the loop's rows, or stops with the same error |
| `Sessions.OfDateKeep` | Preprocess_Phantom_T1.py:37-55 | a date filter keeps all the files of a date that passes it and none of a date that does not |
| `Sessions.OfDateIncoming` | Preprocess_Phantom_T1.py:148-153 | the files an update reads on a date are all the files of that date when it lies outside the table's range, and none otherwise |
| `Sessions.GatherOfDate` | Preprocess_Phantom_fMRI.py:195-233 | after a successful loop, each file date's row holds the metrics of the last of that date's files |
| `Sessions.IncomingOfLater` | Preprocess_Phantom_T1.py:148-153 | when a table covers the files seen so far, an update over those files plus later ones dated outside the range reads exactly the later ones |
| `Sessions.GatherMergeFails` | Preprocess_Phantom_fMRI.py:255-262 | if the loop over the seen files succeeded, the loop over the files an update reads fails exactly when the loop over all files fails |
| `Sessions.GatherMerge` | Preprocess_Phantom_fMRI.py:195-233 | the frame of the seen files overwritten by the frame of the files an update reads is the frame of all files |
| `CoilCheck.TagValue` | Preprocess_Phantom_T1.py:169 | `int` of a one- or two-digit coil label is below 100 |
| `CoilCheck.TwoDigits` | Preprocess_Phantom_T1.py:169 | `'%02i'` of a number below 100 has two characters |
| `CoilCheck.TwoDigitsRoundTrip` | Preprocess_Phantom_T1.py:169 | reading back a two-digit label gives the number formatted |
| `CoilCheck.TwoDigitsOfValue` | Preprocess_Phantom_T1.py:169 | reformatting a two-digit label gives the same label |
| `CoilCheck.PadProperties` | Preprocess_Phantom_T1.py:169 | padding keeps the label's value, leaves two-digit labels alone, and is idempotent |
| `CoilCheck.Coils` | Preprocess_Phantom_T1.py:122 | the coil list has 32 labels |
| `CoilCheck.CoilsDistinct` | Preprocess_Phantom_T1.py:122 | the 32 coil labels are distinct |
| `CoilCheck.PaddedTagIsStandard` | Preprocess_Phantom_T1.py:169 | a padded label of coil 1..32 is that coil's entry in the coil list |
| `CoilCheck.DataArray` | Preprocess_Phantom_T1.py:24-27 | a coil's cells hold the image's voxel sum, and its centre of mass is NaN exactly when that sum is zero |
| `CoilCheck.InRowOf` | Preprocess_Phantom_T1.py:114-121 | a session row has a coil column exactly when some file of that date writes it |
| `CoilCheck.LastFileWins` | Preprocess_Phantom_T1.py:114-121 | a coil's cells hold the data of the last file of that date and coil |
| `CoilCheck.PartialFrame` | Preprocess_Phantom_T1.py:103-113 | every distinct file date has a row from the start of the fill loop |
| `CoilCheck.RawFrame` | Preprocess_Phantom_T1.py:103-121 | the filled frame has one row per file date, holding what the files of that date wrote |
| `CoilCheck.BuildFrame` | Preprocess_Phantom_T1.py:114-121 | the fill loop builds that frame |
| `CoilCheck.TotalSignal` | Preprocess_Phantom_T1.py:124-127 | the first coil loop sums the non-NaN signals of the 32 coils |
| `CoilCheck.DivideSignals` | Preprocess_Phantom_T1.py:128-130 | the second coil loop divides every present coil signal by that total |
| `CoilCheck.NormalizeRow` | Preprocess_Phantom_T1.py:123-130 | both coil loops on one row give the normalised row |
| `CoilCheck.NormalizedCells` | Preprocess_Phantom_T1.py:122-130 | normalisation keeps columns and coordinates, divides each present coil's signal by the sum of the present signals, and leaves NaN coils and other columns as they were |
| `CoilCheck.NormalizeAll` | Preprocess_Phantom_T1.py:123-130 | the `iterrows` loop normalises every row of the frame |
| `CoilCheck.SharesSumToOne` | Preprocess_Phantom_T1.py:122-130 | when the session's total is nonzero, the present proportions add up to one |
| `CoilCheck.NormalizeIdempotent` | Preprocess_Phantom_T1.py:175-183 | normalising a normalised row again changes nothing |
| `CoilCheck.CreateTable` | Preprocess_Phantom_T1.py:100-133 | the rebuild computes the coil-check table with coil labels padded (corrected, see Findings) |
| `CoilCheck.RebuildRows` | Preprocess_Phantom_T1.py:100-131 | the rebuilt table is sorted, has one row per distinct file date, and each row is the normalised row of that date's files |
| `CoilCheck.SortedRows` | Preprocess_Phantom_T1.py:131 | each sorted row is the normalised row of the frame at its date |
| `CoilCheck.UpdateTable` | Preprocess_Phantom_T1.py:147-188 | the update computes the extended coil-check table |
| `CoilCheck.ExtendKeeps` | Preprocess_Phantom_T1.py:147-186 | an update of a nonempty table succeeds and extends it as `Sessions.MergeIncoming` states; each row that is not an old one is the normalised row of the files read on its date |
| `CoilCheck.RowOfDate` | Preprocess_Phantom_T1.py:114-121 | a session's row depends only on the files of that date, in order |
| `CoilCheck.ExtendAgreesWithRebuild` | Preprocess_Phantom_T1.py:100-186 | extending a nonempty rebuilt table with later files dated outside its range gives the table rebuilt from all the files |
| `CoilCheck.ExtendNothingNew` | Preprocess_Phantom_T1.py:148-153 | an update finding no file outside the table's range returns the table unchanged |
| `CoilCheck.ExtendTwice` | Preprocess_Phantom_T1.py:147-186 | a second update with the same files changes nothing |
| `CoilCheck.PaddedFileFillsItsCoil` | Preprocess_Phantom_T1.py:166-174 | with padding, the file of coil n fills the column of the n-th standard coil in its session's row |
| `CoilCheck.UnpaddedLabelMissesColumn` | Preprocess_Phantom_T1.py:117-120 | as written, a file labelled `1` leaves column `01` NaN and writes an extra column `1` holding its raw, unnormalised signal |
| `CoilCheck.PaddedLabelFillsColumn` | Preprocess_Phantom_T1.py:169 | with the label padded, a lone file labelled `1` fills column `01` with proportion one |
| `Anomaly.WarmUpHasNoMedian` | Preprocess_Phantom_T1.py:237-238 | rows 0..3 have no rolling median and so no deviation |
| `Anomaly.WindowMedian` | Preprocess_Phantom_T1.py:237 | from row 4 on, with all five cells present, the rolling median is the median of those five |
| `Anomaly.SquaredNorm` | Preprocess_Phantom_T1.py:246 | the squared spatial deviation is NaN exactly when one axis is NaN, and otherwise non-negative |
| `Anomaly.PropDev` | Preprocess_Phantom_T1.py:247 | the proportion deviation is never negative |
| `Anomaly.Best` | Preprocess_Phantom_T1.py:242-252 | the chosen coil is an index of the coil list |
| `Anomaly.BestDeviation` | Preprocess_Phantom_T1.py:246-250 | `max_dev` bounds every non-NaN deviation and is the deviation of the chosen coil; no later coil attains it; with all NaN it stays 0 and the coil stays `01` |
| `Anomaly.BestProportion` | Preprocess_Phantom_T1.py:247-252 | `max_prop_dev` bounds every non-NaN proportion deviation and is one of them, or 0 when all are NaN |
| `Anomaly.CoilIgnoresProportions` | Preprocess_Phantom_T1.py:248-252 | the proportion deviations never change `max_dev` or the coil |
| `Anomaly.PickCoil` | Preprocess_Phantom_T1.py:242-252 | the inner coil loop computes those running maxima |
| `Anomaly.AllSummaries` | Preprocess_Phantom_T1.py:241-255 | one summary per table row, each the summary of that row |
| `Anomaly.SummariseSession` | Preprocess_Phantom_T1.py:241-255 | the loop body writes the summary of its row |
| `Anomaly.SummariseAll` | Preprocess_Phantom_T1.py:241-255 | the outer loop writes the summary of every row |
| `Anomaly.Summarise` | Preprocess_Phantom_T1.py:235-258 | the summariser computes the summary table |
| `Anomaly.SummaryShape` | Preprocess_Phantom_T1.py:256 | a table of n rows has n-4 summary rows (none when n <= 4), and summary k is the summary of row k+4 |
| `Anomaly.DropWarmUpShape` | Preprocess_Phantom_T1.py:256 | dropping the first four index labels of a sorted table drops exactly its first four rows |
| `Anomaly.SteadyHasNoDeviation` | Preprocess_Phantom_T1.py:237-238 | a column constant over the window has deviation zero |
| `Anomaly.SteadyCoil` | Preprocess_Phantom_T1.py:245-247 | a coil steady over the window has zero spatial and proportion deviation |
| `Anomaly.SteadyPosition` | Preprocess_Phantom_T1.py:246 | a coil whose centre of mass is steady over the window has zero spatial deviation |
| `Anomaly.BestOfZeros` | Preprocess_Phantom_T1.py:248-250 | when every deviation is zero, the `>=` tie rule picks the last coil |
| `Anomaly.SteadySessionNamesLastCoil` | Preprocess_Phantom_T1.py:248-250 | in a session where all 32 coils are steady, the summary is zero, zero and coil `32` |
| `Anomaly.BestUniqueMax` | Preprocess_Phantom_T1.py:248-250 | a deviation strictly larger than every other wins: `max_dev` is that deviation and the coil is its coil |
| `Anomaly.OutlierNamesItsCoil` | Preprocess_Phantom_T1.py:241-252 | in a session where one coil moved further than every other coil, the summary names that coil and its deviation |
| `Ghosting.RotateMoves` | Preprocess_Phantom_fMRI.py:70 | a cyclic shift by s moves element j to j+s, wrapping at the end |
| `Ghosting.RotateBack` | Preprocess_Phantom_fMRI.py:70 | shifting by s and then by the rest of the length gives the original back |
| `Ghosting.RotatePermutes` | Preprocess_Phantom_fMRI.py:70 | a cyclic shift is a permutation |
| `Ghosting.Roll` | Preprocess_Phantom_fMRI.py:70 | `np.roll` along axis 1 shifts every plane cyclically by half its length and keeps the shape |
| `Ghosting.RollVoxel` | Preprocess_Phantom_fMRI.py:70 | every rolled voxel comes from the same row and depth, at some index along axis 1 |
| `Ghosting.RollTwice` | Preprocess_Phantom_fMRI.py:70 | when axis 1 has even length, rolling twice gives the mask back |
| `Ghosting.RollPermutes` | Preprocess_Phantom_fMRI.py:70 | rolling permutes the voxels, so it keeps the mask's voxel count |
| `Ghosting.RollBinary` | Preprocess_Phantom_fMRI.py:70 | a rolled 0/1 mask is a 0/1 mask of the same shape |
| `Ghosting.LabelArithmetic` | Preprocess_Phantom_fMRI.py:73-76 | for 0/1 inputs the two steps give 0 on the mask, 1 on rolled-only voxels and 2 elsewhere |
| `Ghosting.LabelsPartition` | Preprocess_Phantom_fMRI.py:73-76 | the labels partition the volume: 0 exactly on the mask, 1 exactly on the ghost, 2 exactly on the rest |
| `Ghosting.SelectConstant` | Preprocess_Phantom_fMRI.py:79-80 | a label whose voxels all hold c selects a nonempty run of c |
| `Ghosting.LabelValues` | Preprocess_Phantom_fMRI.py:73-80 | an image constant on signal, ghost and background is constant on labels 0, 1 and 2 |
| `Ghosting.RatioOfConstantLabels` | Preprocess_Phantom_fMRI.py:79-81 | on an image constant per label, the ratio is (ghost - background) / signal |
| `Ghosting.GsrOfPiecewiseConstant` | Preprocess_Phantom_fMRI.py:39-81 | `gsr` of such an image is (ghost value - background value) / signal value |
| `Stability.ForegroundMask` | Preprocess_Phantom_fMRI.py:102 | the mask is 0/1, of the image's shape, and 1 exactly where the mean exceeds a quarter of the maximum |
| `Stability.BrightestIsForeground` | Preprocess_Phantom_fMRI.py:102 | with a positive maximum, the foreground is not empty |
| `Stability.DarkImageHasNoForeground` | Preprocess_Phantom_fMRI.py:102 | with a non-positive maximum, the foreground is empty |
| `Stability.RoiAsWritten` | Preprocess_Phantom_fMRI.py:103 | the ROI as the slice assignment writes it: 1 exactly inside numpy's three slices, negative bounds counting from the end |
| `Stability.Roi` | Preprocess_Phantom_fMRI.py:103 | the ROI as intended: 1 exactly inside the half-open box of 20×20×10 voxels around the centre |
| `Stability.SliceOnAxis` | Preprocess_Phantom_fMRI.py:103 | a slice whose bounds lie on the axis selects exactly the indices between them |
| `Stability.RoiAgreesInside` | Preprocess_Phantom_fMRI.py:103 | when the box fits in the volume, both ROIs are equal |
| `Stability.RoiNearEdgeIsEmpty` | Preprocess_Phantom_fMRI.py:103 | as written, a centre less than 10 voxels from the low edge of axis 0 gives an empty ROI |
| `Stability.BoxNearEdgeIsNotEmpty` | Preprocess_Phantom_fMRI.py:103 | the intended ROI contains its centre even near the edge |
| `Stability.SliceWrapsAtFive` | Preprocess_Phantom_fMRI.py:222 | on a 64-voxel axis the slice `-5:15` starts at 59 and selects nothing, while the box holds 0..14 |
| `Stability.MaskedVoxel` | Preprocess_Phantom_fMRI.py:104 | a masked voxel is the tSNR inside the ROI and 0 outside |
| `Stability.InMaskedNonZero` | Preprocess_Phantom_fMRI.py:138 | the values averaged are exactly the nonzero tSNR values inside the ROI |
| `Stability.TsnrAveragesRoi` | Preprocess_Phantom_fMRI.py:138 | tSNR is NaN exactly when the ROI holds no nonzero value, and otherwise lies within the range of those values |
| `Stability.DistSq` | Preprocess_Phantom_fMRI.py:115 | a squared Euclidean distance is never negative |
| `Stability.DistSqSymmetric` | Preprocess_Phantom_fMRI.py:115 | the distance matrix is symmetric with a zero diagonal |
| `Stability.MaxDisplacementSq` | Preprocess_Phantom_fMRI.py:115-116 | the maximum bounds every pairwise distance and is attained by some pair |
| `Stability.DisplacementOfStillHead` | Preprocess_Phantom_fMRI.py:115-116 | the maximum displacement is non-negative, and zero when all centroids coincide (so for a single frame) |
| `Stability.FrameCentroids` | Preprocess_Phantom_fMRI.py:110-113 | the frame loop collects those centroids |
| `Stability.DisplacementCases` | Preprocess_Phantom_fMRI.py:110-116 | the displacement fails only with no frame, is NaN exactly when a frame has no centroid, and is otherwise non-negative |
| `FuncTable.RoiCentre` | Preprocess_Phantom_fMRI.py:97-100 | rounding fails exactly when the tSNR map has no centroid; otherwise each coordinate is within one half of the centroid's |
| `FuncTable.CachedMatchesFresh` | Preprocess_Phantom_fMRI.py:203-232 | the cached branch gives the same result as the fresh computation on every input, failures included |
| `FuncTable.MetricsFailure` | Preprocess_Phantom_fMRI.py:84-143 | a session fails exactly when the tSNR map has no centroid, the mean map is empty, there is no frame or the sidecar lacks `TxRefAmp`; the missing key is reported only when every numeric step passed |
| `FuncTable.FreshRecord` | Preprocess_Phantom_fMRI.py:97-143 | a successful session passed every step that can raise and holds the tSNR of the corrected box ROI, the GSR in percent, the amplitude and the displacement computed from them |
| `FuncTable.FreshAgreesInside` | Preprocess_Phantom_fMRI.py:97-104 | when the box around the rounded centroid fits inside the tSNR map, the stored tSNR is the one the script's slice ROI gives |
| `FuncTable.MetricsRecord` | Preprocess_Phantom_fMRI.py:138-143 | a successful row stores the sidecar amplitude, a non-negative displacement that is NaN exactly when a frame has no centroid, and a tSNR within the range of the tSNR map |
| `FuncTable.RebuildAsWrittenFails` | Preprocess_Phantom_fMRI.py:195-196 | as written, a rebuild from at least one file fails and so differs from the corrected rebuild; with no file both give the empty table |
| `FuncTable.CreateTable` | Preprocess_Phantom_fMRI.py:185-236 | the rebuild computes the corrected functional table (path turned into a string, box ROI) |
| `FuncTable.RebuildRows` | Preprocess_Phantom_fMRI.py:193-234 | the rebuilt table is sorted, has one row per distinct file date, and each row holds the metrics of the last file of its date |
| `FuncTable.RebuildError` | Preprocess_Phantom_fMRI.py:195-233 | the rebuild fails exactly when some file fails, with the error of the first failing file |
| `FuncTable.UpdateTable` | Preprocess_Phantom_fMRI.py:239-267 | the update computes the extended functional table, with the corrected box ROI |
| `FuncTable.ExtendKeeps` | Preprocess_Phantom_fMRI.py:242-265 | a successful update extends the table as `Sessions.MergeIncoming` states; each row that is not an old one holds the fresh metrics of the last file read on its date |
| `FuncTable.ExtendError` | Preprocess_Phantom_fMRI.py:241-262 | an update fails on an empty table, and otherwise exactly when a file read fails, with the first failing file's error |
| `FuncTable.ExtendAgreesWithRebuild` | Preprocess_Phantom_fMRI.py:185-267 | extending a nonempty rebuilt table with later files dated outside its range fails exactly when rebuilding from all the files fails, and otherwise gives that rebuilt table |
| `FuncTable.ExtendNothingNew` | Preprocess_Phantom_fMRI.py:242-246 | an update finding no file outside the table's range returns the table unchanged |
| `FuncTable.ExtendTwice` | Preprocess_Phantom_fMRI.py:239-267 | a second update with the same files changes nothing |

## Left out

- File discovery is not modelled: `get_all_files_scanner`, the file-name regular expressions and `dateutil` parsing in `get_date_from_file_list` and the filters. Files are given as a sequence of (date, contents) pairs, and a coil-check file also carries its coil label as parsed.
- Reading NIfTI images, CSV and JSON files and writing CSV files is not modelled. Images and the persisted table are parameters, and results are return values.
- The sidecar's `TxRefAmp` entry is an `Option<real>`. A missing key is the `MissingMetadataField` failure.
- The nipype `confounds.TSNR` run is not modelled. The tSNR and mean maps are inputs.
- The per-frame masked-signal timeseries, its `polyfit`/`polyval` fit and its plot (Preprocess_Phantom_fMRI.py:105-131) are not modelled because they only feed a figure. On a timeseries containing NaN, `polyfit` can raise; the model ignores that failure of the fresh branch.
- The cached branch is chosen by a flag on each file, which stands for the existence of the timeseries plot. `FuncTable.Rebuild` is the corrected rebuild, in which that test runs on the path as a string; as written, the test (Preprocess_Phantom_fMRI.py:196) raises `TypeError` first, which `FuncTable.RebuildAsWritten` models (see Findings).
- `FuncTable.Record`: the stored tSNR is that of the corrected box ROI (`Stability.Roi`), not of the script's slices. The two agree whenever the box fits in the map (`FuncTable.FreshAgreesInside`); near a low edge the script's slices select nothing (see Findings).
- `FuncTable.FreshRecord`: states the record of the corrected box ROI, for the reason given for `FuncTable.Record`.
- `FuncTable.CreateTable`: computes the corrected rebuild. The rebuild as written fails on every nonempty file list (`FuncTable.RebuildAsWrittenFails`), and its tSNR uses the corrected box ROI.
- `FuncTable.UpdateTable`: its tSNR uses the corrected box ROI.
- `CoilCheck.Rebuild`: the corrected rebuild, with coil labels padded to two digits as at Preprocess_Phantom_T1.py:169; `CoilCheck.RebuildAsWritten` is the script's own rebuild, which does not pad (see Findings). `CoilCheck.RebuildRows` and `CoilCheck.ExtendAgreesWithRebuild` are about the corrected rebuild.
- `FuncTable.Rebuild`: the corrected rebuild. Only `FuncTable.RebuildAsWritten` models the `TypeError` of the code as written.
- An update of an empty table fails with `EmptyTable`, because `df_full.index[0]` raises (Preprocess_Phantom_T1.py:149, Preprocess_Phantom_fMRI.py:242). So a table cannot be grown from nothing by updates, and both `ExtendAgreesWithRebuild` lemmas start from a nonempty rebuilt table.
- The `plot_anat` overlays, `create_plot_32_coils`, `add_marks_worst_coil`, `create_report` and the individual-report functions are left out as output formatting.
- The dashboards and plotting helpers of the repository are left out as user interface.
- IEEE floating point is replaced by exact reals. NaN is `None`. NaN voxel values inside images are not modelled.
- `Ghosting.Ratio`: a zero signal median, which numpy turns into an infinite ratio, is modelled as NaN.
- `CoilCheck.Share`: a nonzero signal divided by a zero session total, which would be infinite, is modelled as NaN, the same as 0/0.
- `Ghosting.Roll`: `gsr` is modelled with its default `axis=1` only, which is the only axis the scripts use. The unused `ref_file` and `out_file` parameters are dropped.
- `Volumes.CenterOfMass`: scipy divides the weighted sums by the voxel sum; a zero sum, which gives NaN coordinates there, is `None` here.
- Date indices are integers. The rebuilt tables index by `yyyymmdd` strings and updates by integers. For eight-digit dates both orders agree, so the mixed index is not modelled.
- The column layout and column order of the DataFrames are not modelled. A coil-check row is a map from column suffix to the coil's four cells.
- `Anomaly.Summary`: the script's square root (Preprocess_Phantom_T1.py:246) is not taken; the squared value is stored, which picks the same maximum and coil because the square root is monotone.
- `Stability.Displacement`: the Euclidean distances `cdist` computes (Preprocess_Phantom_fMRI.py:115) are kept squared, so `max_displacement` is stored squared; the square root is monotone, so the same pair attains the maximum.

## Findings

| source | as written | input that shows it | evidently intended | confidence | as-written member | corrected member |
|---|---|---|---|---|---|---|
| Preprocess_Phantom_T1.py:117-120 | `create_dataframe_scanner` names the columns with the coil label as parsed by `(C\|cH)(\d{1,2})`, without padding | a file of coil `C1`: its cells go to new `..._C1` columns, column `C01` stays NaN, and its raw signal is never divided by the session total | pad the label to two digits, as `update_dataframe_scanner` does at line 169 | medium: not executed; depends on one-digit labels occurring in file names | `CoilCheck.RebuildAsWritten`, `CoilCheck.UnpaddedLabelMissesColumn` | `CoilCheck.Rebuild`, `CoilCheck.PaddedLabelFillsColumn` |
| Preprocess_Phantom_fMRI.py:196 | `file.replace("echo-1_bold.nii.gz", "echo-1_bold_timeseries.png")` is called on the `pathlib.Path` the file list holds; `Path.replace` takes one argument and renames the file (lines 204-205 make the same call) | any nonempty file list: the first file raises `TypeError` before anything is measured | turn the path into a string first, `file.as_posix().replace(...)`, as `create_functional_image_metrics` does at line 85 | high: not executed | `FuncTable.RebuildAsWritten`, `FuncTable.RebuildAsWrittenFails` | `FuncTable.Rebuild`, `FuncTable.RebuildRows`, `FuncTable.ExtendAgreesWithRebuild` |
| Preprocess_Phantom_fMRI.py:103 | the ROI is the slice `x-10:x+10` (and likewise for y and z), whose negative start counts from the end of the axis | a tSNR centroid at x = 5 on a 64-voxel axis: `-5:15` becomes `59:15`, the ROI is empty and tSNR is NaN (the cached branch at line 222 behaves the same), unless in the fresh branch the all-NaN timeseries of line 111 makes `polyfit` (line 118) raise first | the box cut at the low edge of the volume, `max(x-10, 0):x+10` | medium: not executed; needs a centroid within 10 voxels (5 along z) of the low edge | `Stability.RoiAsWritten`, `Stability.RoiNearEdgeIsEmpty`, `Stability.SliceWrapsAtFive` | `Stability.Roi`, `Stability.BoxNearEdgeIsNotEmpty`, `Stability.RoiAgreesInside` |
