# PV-Hawk-Viewer: a verified model of the module-temperature analysis and its viewer

PV-Hawk-Viewer is a desktop viewer for photovoltaic plant surveys made with
PV-Hawk. A survey ("dataset") holds a GeoJSON map of the detected PV modules,
one directory of thermal image patches per module (named by its track ID) and
the video frames the patches were cut from. The viewer shows the map, the
patches and source frames of the selected module, lets the user edit string
annotations, and runs analyses. The one analysis it ships computes module
temperatures: per module, the min, max, mean and median temperature of each
patch (after cutting a border margin and converting raw values to Celsius),
the mean of each over the patches, and a "corrected" temperature that
subtracts the median of the module's neighbours within a radius. Results are
written as `results.geojson` plus a `meta.json` under `analyses/<name>`.

This project models, in Dafny:

- the analysis worker of `src/analysis/temperatures.py` (patch truncation,
  sun-reflection filter, per-patch statistics, mean over patches, the
  neighbour query and neighbour medians, corrected columns, the merge with the
  original geometry, saving, progress reports and cancellation) and the older
  copy in `analysis/temperatures.py`;
- the geometry helpers of `src/utils/geojson.py` and the display helpers of
  `src/common.py`;
- the analysis component, its module-temperature dialog and controller, the
  main window, main model and main controller, and the older single-file
  application `main_bak.py` (modelled as if its imports resolved: see
  "Left out");
- the string and annotation editors, the analysis-details window and both
  source-frame views (radiometric and RGB), with their models and controllers.

Files, modules and classes follow the program: a module per source file (or
per coherent part of a large one), a `class` wherever the source keeps an
object whose fields it updates (models, controllers, views, the worker), and
functions on values elsewhere. Each stateful method is specified by a function
of the old state and its inputs, and the properties are proved about those
functions. Python exceptions are `Result.Raise` values naming the exception
class. The file system, images, the clock and user input are parameters;
written files, emitted Qt signals and progress reports are recorded as event
sequences.

## Model

| member | source | states |
|---|---|---|
| Display.FixedIsCalibrated | src/common.py:10-12 | the fixed conversion is the calibrated one with gain 0.04 and offset -273.15 |
| Display.CalibratedAll | src/analysis/temperatures.py:50-53 | converting an image converts every value and keeps the length |
| Display.CalibratedMin | src/analysis/temperatures.py:50 | for a non-negative gain the converted minimum is the minimum of the converted values |
| Display.CalibratedMax | src/analysis/temperatures.py:51 | for a non-negative gain the converted maximum is the maximum of the converted values |
| Display.CalibratedMean | src/analysis/temperatures.py:52 | the converted mean is the mean of the converted values, whatever the gain |
| Display.SumCalibrated | src/analysis/temperatures.py:52 | the sum of converted values is the raw sum times the gain plus one offset per value |
| Display.Normalize | src/common.py:15-20 | clamps the image in place from below and then from above, and returns one grey level per value; no levels when `vmin == vmax` (the scaling divides by zero) |
| Display.ClampSpec | src/common.py:16-17 | with `vmin <= vmax` a clamped value lies in `[vmin, vmax]`, values inside are unchanged, values below become `vmin`, above `vmax` |
| Display.ClampInverted | src/common.py:16-19 | with `vmin > vmax` every value becomes `vmax` and shows as grey level 255 |
| Display.LevelSpec | src/common.py:18-19 | grey levels lie in 0..255, `vmin` maps to 0 and `vmax` to 255, and the mapping is monotone |
| Stats.Min | src/analysis/temperatures.py:50 | `np.min`: a member of the values, no greater than any |
| Stats.Max | src/analysis/temperatures.py:51 | `np.max`: a member of the values, no smaller than any |
| Stats.SortRealsSpec | src/analysis/temperatures.py:53 | the sort behind `np.median` returns a sorted permutation of its input |
| Stats.SortedRealsUnique | src/analysis/temperatures.py:53 | two sorted permutations of the same values are equal |
| Stats.MeanOpt | src/analysis/temperatures.py:60 | `np.mean` of an empty list is NaN (missing), otherwise the mean |
| Stats.MedianOpt | src/analysis/temperatures.py:101 | pandas `median` of no values is missing (NaN), otherwise the median |
| Stats.SumBounds | src/analysis/temperatures.py:52 | values between `lo` and `hi` sum to between `n * lo` and `n * hi` |
| Stats.MeanBetween | src/analysis/temperatures.py:52 | the mean lies between the minimum and the maximum |
| Stats.MeanWithin | src/analysis/temperatures.py:60 | the mean of values in `[lo, hi]` lies in `[lo, hi]` |
| Stats.SortedBetween | src/analysis/temperatures.py:53 | every element of the sorted values lies between the minimum and the maximum |
| Stats.MedianBetween | src/analysis/temperatures.py:53 | the median lies between the minimum and the maximum |
| Stats.Singleton | src/analysis/temperatures.py:60 | the mean and the median of one value are that value |
| Stats.Pair | src/analysis/temperatures.py:101 | the mean and the median of two values are their midpoint |
| Stats.SumPerm | src/analysis/temperatures.py:60 | the sum does not depend on the order of the values |
| Stats.MedianPerm | src/analysis/temperatures.py:101 | the median does not depend on the order of the values |
| PatchStatistics.Trunc | src/analysis/temperatures.py:28 | `int()` truncates toward zero: the floor for non-negative values, minus the floor of the negation otherwise |
| PatchStatistics.TruncateInterior | src/analysis/temperatures.py:25-30 | with a margin of `m >= 1` pixels the patch loses `m` rows and columns on each side and keeps exactly the interior pixels |
| PatchStatistics.TruncateZeroMargin | src/analysis/temperatures.py:28-29 | a margin of 0 pixels gives the empty slice `[0:-0]`, not the whole patch |
| PatchStatistics.Pixels | src/analysis/temperatures.py:50-53 | the flattened pixels are empty exactly when every row of the patch is |
| PatchStatistics.PixelsCount | src/analysis/temperatures.py:50-53 | a rectangular patch flattens to height times width pixels |
| PatchStatistics.PixelsHold | src/analysis/temperatures.py:50-53 | every pixel of the patch is among the flattened pixels the statistics are taken over |
| PatchStatistics.SummaryOrdered | src/analysis/temperatures.py:50-53 | for a non-negative gain a patch's min <= mean <= max and min <= median <= max |
| PatchStatistics.CalibratedBetween | src/analysis/temperatures.py:50-53 | the calibrated conversion with a non-negative gain keeps the order of raw values |
| PatchStatistics.StatOf | src/analysis/temperatures.py:49-53 | a truncated patch without pixels raises ValueError (`np.min` of an empty array); otherwise the four converted statistics of its pixels |
| PatchStatistics.RemovePatchesWithSunReflection | src/analysis/temperatures.py:33-40 | the loop keeps, in order, the files whose stem is not listed |
| PatchStatistics.SunFilterSpec | src/analysis/temperatures.py:33-40 | a file is kept if and only if it is listed and its stem is not a sun reflection; filtering twice changes nothing |
| PatchStatistics.Unzip | src/analysis/temperatures.py:45-53 | the four lists have one entry per patch and entry `k` of each is patch `k`'s statistic |
| PatchStatistics.GetPatchTemps | src/analysis/temperatures.py:43-54 | the loop skips unreadable files, stops at the first patch that raises, and otherwise returns the statistics of the readable patches in file order |
| PatchStatistics.DecodedFiles | src/analysis/temperatures.py:46-48 | the files used are exactly the listed files that decode |
| PatchStatistics.PatchTempsShape | src/analysis/temperatures.py:43-54 | the result is a list per statistic with one entry per readable patch, and it fails exactly when some readable patch has no pixels left |
| PatchStatistics.PatchTempsOrdered | src/analysis/temperatures.py:43-54 | for a non-negative gain each patch's min <= mean <= max and min <= median <= max |
| Neighbourhood.QueryRadius | src/analysis/temperatures.py:88-89 | the KD-tree query returns indices of existing modules |
| Neighbourhood.QueryRadiusSpec | src/analysis/temperatures.py:88-89 | a module is returned if and only if it lies within the radius (inclusive); the query module is its own neighbour exactly when the radius is non-negative |
| Neighbourhood.Neighbours | src/analysis/temperatures.py:100 | the neighbour list after removing the module itself holds indices of existing modules |
| Neighbourhood.NeighboursSpec | src/analysis/temperatures.py:89-100 | `j` is a neighbour of `i` if and only if `j != i` and `j` lies within the radius; a module is never its own neighbour |
| Neighbourhood.NeighboursSymmetric | src/analysis/temperatures.py:89-100 | `j` is a neighbour of `i` if and only if `i` is a neighbour of `j` |
| Neighbourhood.NeighboursMonotone | src/analysis/temperatures.py:89-100 | a larger radius keeps every neighbour |
| Neighbourhood.Present | src/analysis/temperatures.py:101 | the non-missing values of the neighbour rows are at most as many as the rows |
| Neighbourhood.PresentSpec | src/analysis/temperatures.py:101 | a value is present if and only if some selected row holds it |
| Neighbourhood.NeighbourMedians | src/analysis/temperatures.py:92-106 | one median per module, the median of its neighbours' present values |
| Neighbourhood.NeighbourOrderIrrelevant | src/analysis/temperatures.py:89-101 | the median does not depend on the order in which the tree returns neighbours |
| Neighbourhood.NeighbourMedianMissing | src/analysis/temperatures.py:100-101 | the neighbour median is missing if and only if every neighbour's value is missing (including a module without neighbours) |
| Neighbourhood.NeighbourMedianWithin | src/analysis/temperatures.py:100-101 | when every neighbour's value lies in `[lo, hi]` so does the neighbour median |
| Frames.Frame.constructor | src/analysis/temperatures.py:21-22 | a data frame holding the given rows |
| Frames.Frame.SetAligned | src/analysis/temperatures.py:60 | assigning a series aligns it on the track ID of each row |
| Frames.Frame.SetColumn | src/analysis/temperatures.py:143-144 | assigning a list sets one cell per row, in row order |
| Frames.WithAligned | src/analysis/temperatures.py:60 | aligning a series keeps the number of rows |
| Frames.WithColumn | src/analysis/temperatures.py:143-144 | assigning a column keeps the number of rows |
| Frames.WithAlignedSpec | src/analysis/temperatures.py:60 | each row gains the column, valued by its track ID's entry in the series or NaN when the series has none, and keeps every other column |
| Frames.MeanCell | src/analysis/temperatures.py:60 | `np.mean` of an empty list is NaN, otherwise the mean |
| Frames.MeanSeries | src/analysis/temperatures.py:60 | the series has one entry per module with temperatures, the mean of its patch values for that statistic |
| Frames.MeanOverPatchesSpec | src/analysis/temperatures.py:57-60 | the columns added so far keep the number of rows |
| Frames.MeanOverPatches | src/analysis/temperatures.py:57-60 | the loop adds the four `<agg>_temp` columns in the order min, max, mean, median |
| Frames.TempColumnIsNew | src/analysis/temperatures.py:59-60 | no `<agg>_temp` column overwrites the track ID, geometry type or geometry |
| Frames.TempColumnInjective | src/analysis/temperatures.py:59-60 | different statistics get different column names |
| Frames.MeanOverPatchesCell | src/analysis/temperatures.py:57-60 | each row's `<agg>_temp` cell is the mean over its module's patches, or NaN for a module without temperatures or without a track ID |
| Frames.MeanOverPatchesSingle | src/analysis/temperatures.py:57-60 | for a module with one patch the column holds that patch's value |
| Frames.MeanOverPatchesKeeps | src/analysis/temperatures.py:57-60 | the rows gain exactly the four temperature columns and keep every other cell |
| Frames.NumericColumn | src/analysis/temperatures.py:139 | reading a column gives one value per row, present exactly where the cell is a number |
| Frames.Subtract | src/analysis/temperatures.py:143-144 | subtracting a list of another length raises ValueError; otherwise each cell is the difference, NaN where either side is missing |
| Frames.FirstMatch | src/analysis/temperatures.py:150-154 | the first original row with the same track ID and geometry type; none only when no row matches |
| Frames.MergeSpec | src/analysis/temperatures.py:146-154 | the merged frame holds the corner rows followed by the center rows |
| Frames.MergeSpecRows | src/analysis/temperatures.py:146-154 | each merged row keeps every cell but the geometry, which comes from the first original row with the same track ID and geometry type when there is one and its geometry is not missing; an unmatched row is unchanged |
| Temperatures.LoadModules | src/analysis/temperatures.py:17-23 | loads the layout, projects it and splits it into the polygon rows (corners) and point rows (centers), or raises as the steps do |
| Temperatures.LoadModulesShape | src/analysis/temperatures.py:17-23 | loading succeeds if and only if the file exists, holds a feature and every feature has a track ID; a missing file raises FileNotFoundError and a bad layout KeyError; corners are exactly the projected polygons and centers exactly the projected points |
| Temperatures.PollState | src/analysis/temperatures.py:95-121 | reading the flag counts one poll, leaves the progress and the reports alone, and the flag is up once a cancellation was requested by that poll |
| Temperatures.Fraction | src/analysis/temperatures.py:94-120 | `(i / n) / 5` for `i < n` lies in `[0, 0.2)` |
| Temperatures.TrackResults | src/analysis/temperatures.py:126-129 | one result per module, in module order |
| Temperatures.CentersSpec | src/analysis/temperatures.py:87-88 | when the tree can be built it has one point per center row, and there is at least one row |
| Temperatures.MetaOf | src/analysis/temperatures.py:165-176 | the metadata records the reflection data if and only if reflections were ignored and data was given, and then it is that data |
| Temperatures.Worker.constructor | src/analysis/temperatures.py:67-81 | a new worker keeps its parameters, stores the border margin as a fraction (`0.01 * border_margin`), is not cancelled and has progress 0 |
| Temperatures.Worker.Poll | src/analysis/temperatures.py:95-121 | reads the cancellation flag: the worker's state becomes `PollState` of the old one |
| Temperatures.Worker.Emit | src/analysis/temperatures.py:96-131 | emitting a signal appends it to the events and changes nothing else |
| Temperatures.Worker.EmitCancelled | src/analysis/temperatures.py:96-123 | a cancellation appends the cancelled progress report and `finished` |
| Temperatures.Worker.TrackPatchTemps | src/analysis/temperatures.py:126-129 | the sorted patch files of a module, without its sun reflections when asked, reduced to their temperatures |
| Temperatures.Worker.ExtractTemps | src/analysis/temperatures.py:117-132 | the loop over the sorted modules computes `ExtractSpec`: it polls, reports `(i/n)/5`, stops on a cancellation or an exception, and records the last progress |
| Temperatures.Worker.NeighbourIteration | src/analysis/temperatures.py:93-104 | one iteration polls the flag, then reports the cancellation or appends the median and reports progress |
| Temperatures.Worker.NeighbourLoop | src/analysis/temperatures.py:92-104 | the loop over the centers computes `NeighbourFrom` from the first center |
| Temperatures.Worker.GetNeighboursMedianTemp | src/analysis/temperatures.py:83-106 | computes `NeighboursSpec`: the neighbour median of each center, progress in the next fifth of the bar, None on a cancellation |
| Temperatures.Worker.CorrectionPass | src/analysis/temperatures.py:137-144 | one pass adds `<agg>_temp_corrected` to both frames as `PassStep` says, or ends the run |
| Temperatures.Worker.CorrectionPasses | src/analysis/temperatures.py:137-144 | the four passes in the order min, max, mean, median, as `PassesFrom` says |
| Temperatures.Worker.Report | src/analysis/temperatures.py:162-180 | after serialising, writes the results and the metadata, reports `Done` and emits `finished`; a failed serialisation raises |
| Temperatures.Worker.Finish | src/analysis/temperatures.py:146-180 | merges, restores the original geometry, reports saving at 1 and saves |
| Temperatures.Worker.CorrectAndSave | src/analysis/temperatures.py:134-180 | the means over patches for both frames, the correction passes and the save |
| Temperatures.Worker.Analyse | src/analysis/temperatures.py:117-180 | the run after loading the modules, from a fresh worker |
| Temperatures.Worker.Run | src/analysis/temperatures.py:108-180 | the whole run from a fresh worker computes `RunSpec`: its outcome and final state |
| Temperatures.FractionMonotone | src/analysis/temperatures.py:94-120 | later iterations never report a smaller fraction |
| Temperatures.ExtractEnds | src/analysis/temperatures.py:117-132 | the module loop either ends the run properly or continues with progress reports ascending in `[0, 0.2)` |
| Temperatures.NeighboursEnds | src/analysis/temperatures.py:83-106 | a neighbour pass either ends the run properly or continues with one median per row and progress below 0.2 above where it started |
| Temperatures.PassStepEnds | src/analysis/temperatures.py:137-144 | a pass either ends the run properly or keeps both frames' lengths and advances by less than 0.2 |
| Temperatures.PassesFromEnds | src/analysis/temperatures.py:137-144 | the remaining passes either end the run properly or continue below 1 with both frames' lengths kept |
| Temperatures.AppendDone | src/analysis/temperatures.py:157-180 | a running worker that saves and reports ends completed |
| Temperatures.ReportEnds | src/analysis/temperatures.py:157-180 | saving ends the run properly whether or not serialisation raises |
| Temperatures.FinishEnds | src/analysis/temperatures.py:146-180 | the merge and save end the run properly |
| Temperatures.CorrectAndSaveEnds | src/analysis/temperatures.py:134-180 | everything after the module loop ends the run properly |
| Temperatures.RunEnds | src/analysis/temperatures.py:108-180 | every run ends properly: progress ascending within `[0, 1]` and below 1 before the saving report; a failed run reported progress only; a cancelled run saw the flag and ends with the cancelled report and `finished`; a completed run never saw the flag and ends with the saving report, both files, `Done` and `finished` |
| Temperatures.NoRequestNoCancel | src/analysis/temperatures.py:95-124 | a run with no cancellation request is never cancelled |
| Temperatures.EndedWrites | src/analysis/temperatures.py:157-177 | in a properly ended run, anything written means the run completed |
| Temperatures.EndedBelowOne | src/analysis/temperatures.py:157-179 | in a properly ended run, a report that reaches 1 is the saving report or the `Done` report |
| Temperatures.RunBelowOne | src/analysis/temperatures.py:108-180 | a run's progress stays below 1 until its saving and `Done` reports |
| Temperatures.EndedFinished | src/analysis/temperatures.py:97 | in a properly ended run `finished` is emitted if and only if the run did not raise, and only as the last event (the same code recurs at lines 123, 180) |
| Temperatures.WritesOnlyWhenCompleted | src/analysis/temperatures.py:157-177 | results and metadata are written only by runs that complete |
| Temperatures.FinishedLast | src/analysis/temperatures.py:97 | `finished` is emitted if and only if the run did not raise, and only as the last event (the same code recurs at lines 123, 180) |
| Temperatures.ExtractCancelledFirst | src/analysis/temperatures.py:119-124 | a cancellation before the first module stops at the first poll with the cancelled report at 0 and `finished` |
| Temperatures.CancelAtStart | src/analysis/temperatures.py:108-124 | a run cancelled from the start that gets to the module loop reports only the cancellation at 0 and `finished` |
| Temperatures.CorrectingTextOf | src/analysis/temperatures.py:104-138 | the progress text of a pass reads `Computing corrected <agg> temp...` |
| Temperatures.SpacedWords | src/analysis/temperatures.py:104 | splitting `<name>_temp` on `_` and joining with spaces gives `<name> temp` |
| LegacyTemperatures.NarrowPatchVanishes | analysis/temperatures.py:14-19 | with the default margin of 5 %, a patch narrower than 20 pixels has a 0-pixel margin and the slice leaves nothing of it |
| LegacyTemperatures.WidePatchCropped | analysis/temperatures.py:14-19 | a patch at least 20 pixels wide loses `m >= 1` rows and columns on each side and keeps exactly its interior |
| LegacyTemperatures.PatchTempsOfFiles | analysis/temperatures.py:32-43 | with the fixed conversion, one entry per readable patch in each list, and each patch's min <= mean <= max and min <= median <= max |
| LegacyTemperatures.Reduce | analysis/temperatures.py:50-54 | `np.max`/`np.min` of an empty list raise ValueError, `t[agg][0]` raises IndexError, `np.mean`/`np.median` give NaN; otherwise a number |
| LegacyTemperatures.SeriesOf | analysis/temperatures.py:50-54 | the series has one entry per module, the reduction of its values, and raises exactly when the reduction raises for some module |
| LegacyTemperatures.ColumnsFrom | analysis/temperatures.py:49-54 | five columns per remaining statistic |
| LegacyTemperatures.InsertAgg | analysis/temperatures.py:50-54 | the five assignments of one statistic, in the order max, min, mean, median, first, stopping at the first that raises |
| LegacyTemperatures.InsertColumn | analysis/temperatures.py:50-54 | one assignment: it raises and stops, or assigns the aligned series and leaves the rest to do |
| LegacyTemperatures.InsertTemps | analysis/temperatures.py:46-54 | the twenty assignments in source order, stopping at the first that raises with the earlier columns in place |
| LegacyTemperatures.InsertFromAppend | analysis/temperatures.py:49-54 | assigning two lists of columns is assigning the first and, unless it raised, then the second |
| LegacyTemperatures.ColumnNameParts | analysis/temperatures.py:50-54 | a column name splits on `_` into the reduction, `of`, the statistic and `temps` |
| LegacyTemperatures.ColumnNameInjective | analysis/temperatures.py:50-54 | different columns have different names |
| LegacyTemperatures.ColumnNameNotTrackId | analysis/temperatures.py:50-54 | no assigned column overwrites the track ID |
| LegacyTemperatures.AggColumnsMembers | analysis/temperatures.py:50-54 | the five columns of a statistic are exactly the columns over that statistic |
| LegacyTemperatures.ColumnsFromSpec | analysis/temperatures.py:49-54 | the remaining columns are distinct and are exactly those over the remaining statistics |
| LegacyTemperatures.AllColumnNamesDistinct | analysis/temperatures.py:49-54 | twenty columns with twenty distinct names |
| LegacyTemperatures.InsertFromOk | analysis/temperatures.py:46-54 | when no series raises, the rows gain exactly the assigned columns and keep every other cell |
| LegacyTemperatures.InsertFromCell | analysis/temperatures.py:46-54 | when no series raises, each assigned cell holds its series' entry for the row's track ID, or NaN |
| LegacyTemperatures.InsertTempsRaises | analysis/temperatures.py:46-54 | `insert_temps` raises if and only if some module has no readable patch, and then it raises ValueError at the first assignment and leaves the frame unchanged |
| LegacyTemperatures.AggregatedOrdered | analysis/temperatures.py:50-54 | in a row, `min_of` <= `mean_of`, `median_of`, `first_of` <= `max_of` |
| LegacyTemperatures.ColumnIndex | analysis/temperatures.py:49-54 | every column is one of the twenty |
| LegacyTemperatures.InsertedCell | analysis/temperatures.py:46-54 | when every module has a patch, each row holds each column, the reduction of its module's values or NaN for a row without temperatures |
| LegacyTemperatures.InsertTempsKeeps | analysis/temperatures.py:46-54 | when every module has a patch, the rows gain exactly the twenty columns and keep every other cell |
| LegacyTemperatures.InsertTempsCells | analysis/temperatures.py:46-54 | when every module has a patch, a row with temperatures holds the five aggregates of each statistic, and any other row NaN in them |
| LegacyTemperatures.DefaultColumnInserted | analysis/temperatures.py:57 | the default column `mean_of_max_temps` is one `insert_temps` writes |
| LegacyTemperatures.CentersOf | analysis/temperatures.py:61-62 | when the tree can be built it has one point per center row, and there is at least one row |
| LegacyTemperatures.GetNeighboursMedianTemp | analysis/temperatures.py:57-71 | for each center in row order, the median of the column over the other centers within the radius |
| LegacyTemperatures.NeighboursMedianOk | analysis/temperatures.py:57-71 | the call succeeds if and only if there is a center, the column exists and every center is a point |
| LegacyTemperatures.NeighboursMedianValues | analysis/temperatures.py:57-71 | one median per center, over the present values of exactly the other centers within the radius |
| LegacyTemperatures.LoadModulesGdfShape | analysis/temperatures.py:22-29 | loading succeeds if and only if the file exists and has a `track_id` column; corners are exactly its polygons and centers exactly its points |
| LegacyTemperatures.ModuleResults | analysis/temperatures.py:80-82 | one result per listed module, in list order |
| LegacyTemperatures.GetModuleTemps | analysis/temperatures.py:81-82 | the temperatures of the module's sorted patch files |
| LegacyTemperatures.CollectTemps | analysis/temperatures.py:78-85 | the loop over the sorted modules stores each module's temperatures and reports `i / n`, stopping at the first that raises |
| LegacyTemperatures.ComputeTemperatures | analysis/temperatures.py:74-88 | loads the layout, collects the temperatures and inserts them into the corners and then the centers, as `ComputeSpec` says |
| LegacyTemperatures.CollectProgress | analysis/temperatures.py:85 | the `k`-th progress value is `k / n` |
| LegacyTemperatures.CollectStops | analysis/temperatures.py:80-85 | every reported module succeeded, and a failure is the first module after the reported ones |
| LegacyTemperatures.CollectStores | analysis/temperatures.py:80-82 | a complete loop stores exactly the listed modules, each with its own temperatures |
| LegacyTemperatures.ComputeProgress | analysis/temperatures.py:78-85 | at most one progress value per module, the `k`-th being `k / n`, and fewer only when the call raised |
| LegacyTemperatures.ComputeFirstFailure | analysis/temperatures.py:80-85 | the call raises the exception of the first module whose patches fail |
| LegacyTemperatures.CollectAllStores | analysis/temperatures.py:78-85 | when every module succeeds, each is stored with its temperatures and every module is reported |
| LegacyTemperatures.FramesRaise | analysis/temperatures.py:87-88 | once the temperatures are collected, the call raises if and only if some module has no readable patch, with ValueError and the frames unchanged |
| LegacyTemperatures.TrackIdsMembers | analysis/temperatures.py:79 | the sorted track IDs are the listed directories, without repetition |
| LegacyTemperatures.ComputeRaisesValueError | analysis/temperatures.py:74-88 | when every listed module's temperatures can be computed, the call raises if and only if some module has no readable patch, and then ValueError with the frames unchanged |
| LegacyTemperatures.ComputeCompleted | analysis/temperatures.py:74-88 | when every module has a readable patch, both frames keep their rows and every row holds its module's aggregates, or NaN for a module without a patch directory |
| GeoJson.Columns | src/utils/geojson.py:19 | the columns of a data frame are exactly the keys some row has |
| GeoJson.Clean | src/utils/geojson.py:30 | NaN becomes None and every other value is kept |
| GeoJson.RecordOf | src/utils/geojson.py:12-18 | a feature becomes a row of its track ID, geometry type and geometry, and a feature without a track ID raises |
| GeoJson.LoadSpecShape | src/utils/geojson.py:9-20 | loading succeeds if and only if every feature has a track ID, raising KeyError otherwise, with one row per feature in file order |
| GeoJson.FirstMissingTrackId | src/utils/geojson.py:12-13 | when some feature lacks a track ID there is a first one, where loading stops |
| GeoJson.Load | src/utils/geojson.py:9-20 | the loop builds the rows of `LoadSpec`, stopping at the first feature without a track ID |
| GeoJson.SaveSpecShape | src/utils/geojson.py:23-61 | saving succeeds if and only if the frame is empty or every row has a geometry; the collection is named CRS84 and has one feature per row, in order |
| GeoJson.FeatureOfShape | src/utils/geojson.py:32-49 | a row becomes a feature if and only if the frame has the geometry columns and the row a geometry, whose type and coordinates it takes, with every other non-excluded cell as a property |
| GeoJson.PropertiesOf | src/utils/geojson.py:44-47 | the property loop skips `index`, `level_0`, `geometry` and `geometry_type` and copies every other cell, NaN as None |
| GeoJson.Save | src/utils/geojson.py:23-61 | the loop builds the collection of `SaveSpec` |
| GeoJson.RoundTrip | src/utils/geojson.py:9-61 | loading what was saved gives back, row by row, the track ID, the geometry type and the coordinates, with NaN read back as None |
| GeoJson.RecordOfFeature | src/utils/geojson.py:14-18 | a loaded row has exactly the three columns, taken from the feature |
| GeoJson.MapCoordinates | src/utils/geojson.py:72-74 | projecting keeps the nesting of the coordinates and the number of positions |
| GeoJson.MapIdentity | src/utils/geojson.py:72-74 | the identity projection changes no coordinate |
| GeoJson.Reproject | src/utils/geojson.py:64-78 | the loop builds the projected copy of `ReprojectSpec` |
| GeoJson.ReprojectOnlyGeometry | src/utils/geojson.py:64-78 | the copy has the same rows in order and only their geometry changes: same type, projected coordinates |
| AnalysisRun.RoundHalfEven | src/components/analysis.py:196 | Python's `round`: within one half of `x`, and even on a tie |
| AnalysisRun.RoundUnique | src/components/analysis.py:196 | that integer is the only one nearest to `x` with ties to even |
| AnalysisRun.RoundMonotone | src/components/analysis.py:196 | rounding keeps the order of two numbers |
| AnalysisRun.Percent | src/components/analysis.py:196 | the percentage is within one half of `100 * progress` |
| AnalysisRun.PercentRange | src/components/analysis.py:196 | fractions in `[0, 1]` show as percentages from 0 to 100 that never decrease, 0 for 0 and 100 for 1 |
| AnalysisRun.WorkerHandle.constructor | src/components/analysis.py:170-184 | a new worker keeps its arguments and is not cancelled |
| AnalysisComponent.AnalysisModel.constructor | src/components/analysis.py:217-225 | every field of the model and its two sub-models starts as None |
| AnalysisComponent.AnalysisModel.SetStatus | src/components/analysis.py:258-261 | the status setter stores the value, emits it and changes nothing else |
| AnalysisComponent.AnalysisController.constructor | src/components/analysis.py:134-138 | no thread and no worker yet |
| AnalysisComponent.AnalysisController.Reset | src/components/analysis.py:141-153 | progress 0, empty text, status None, margin 5, radius 7, reflections off, thresholds 5.0, 10.0, 10.0 and 0.3; name and tab unchanged |
| AnalysisComponent.AnalysisController.Compute | src/components/analysis.py:156-192 | returns early without an open dataset; a taken name emits `name_exists` once and starts nothing; no active tab or no object name starts nothing; otherwise status "started" and a new worker of the tab's kind with the model's settings, an unknown tab reusing the previous worker or raising AttributeError without one; the model's settings are unchanged |
| AnalysisComponent.AnalysisController.ReportProgress | src/components/analysis.py:195-200 | the bar shows `round(100 * progress)`, the label the description, and the status becomes "cancelled" exactly when the report says so |
| AnalysisComponent.AnalysisController.OnFinished | src/components/analysis.py:191 | `finished` sets status "finished" and leaves the progress |
| AnalysisComponent.AnalysisController.Cancel | src/components/analysis.py:204-206 | the flag is raised only when a thread and a worker exist; raising it again changes nothing |
| AnalysisComponent.CancelledRun | src/components/analysis.py:156-206 | a cancelled module-temperature run moves the status through "started", "cancelled" and "finished", in that order, with the worker's flag up |
| ModuleTemperaturesController.ModuleTemperaturesModel.constructor | src/components/analysis_module_temperatures.py:150-157 | every field starts as None |
| ModuleTemperaturesController.ModuleTemperaturesModel.SetStatus | src/components/analysis_module_temperatures.py:208-211 | the status setter stores the value, emits it and changes nothing else |
| ModuleTemperaturesController.DefaultName | src/controllers/analysis_module_temperatures_controller.py:19-20 | the default name is `Analysis ` followed by the timestamp |
| ModuleTemperaturesController.Controller.constructor | src/controllers/analysis_module_temperatures_controller.py:10-14 | no thread and no worker yet; the component copy at src/components/analysis_module_temperatures.py:84-88 does the same |
| ModuleTemperaturesController.Controller.Reset | src/controllers/analysis_module_temperatures_controller.py:17-25 | name `Analysis <time>`, margin 5, radius 7, progress 0, empty text, status None; the component copy at src/components/analysis_module_temperatures.py:90-99 does the same |
| ModuleTemperaturesController.Controller.Compute | src/controllers/analysis_module_temperatures_controller.py:28-50 | returns early without an open dataset; a taken name emits `name_exists` once and starts nothing; otherwise status "started" and a new uncancelled worker with the model's name, margin and radius; settings unchanged; the component copy at src/components/analysis_module_temperatures.py:101-124 does the same |
| ModuleTemperaturesController.Controller.ReportProgress | src/controllers/analysis_module_temperatures_controller.py:53-59 | the bar shows `round(100 * progress)`, the label the description, and the status becomes "cancelled" exactly when the report says so; the component copy at src/components/analysis_module_temperatures.py:126-133 does the same |
| ModuleTemperaturesController.Controller.OnFinished | src/controllers/analysis_module_temperatures_controller.py:49 | `finished` sets status "finished" and leaves the progress; the component copy at src/components/analysis_module_temperatures.py:123 does the same |
| ModuleTemperaturesController.Controller.Cancel | src/controllers/analysis_module_temperatures_controller.py:62-64 | the flag is raised only when a thread and a worker exist; raising it again changes nothing; the component copy at src/components/analysis_module_temperatures.py:135-138 does the same |
| ModuleTemperaturesController.CompletedRun | src/controllers/analysis_module_temperatures_controller.py:28-59 | a completed run moves the status through "started" and "finished", with the bar at 100 and the flag down |
| MainState.MainModel.constructor | src/models/main_model.py:13-27 | a new main model is in the cleared state (no dataset, no data, no module, no patch, no source) and has emitted nothing |
| MainState.MainModel.Reset | src/models/main_model.py:17-27 | `reset` clears every field back to its initial value and emits no signal |
| MainState.MainModel.SetSelectedColumn | src/models/main_model.py:33-36 | the column setter stores the value, emits `selected_column_changed` with it, and changes nothing else |
| MainState.MainModel.SetTrackId | src/models/main_model.py:42-47 | selecting a module stores it and resets the patch index to 0; it emits `track_id_changed` and then `patch_idx_changed`, both carrying the track id |
| MainState.MainModel.SetPatchIdx | src/models/main_model.py:53-56 | the patch-index setter stores the index and emits `patch_idx_changed` with it, changing nothing else |
| MainState.MainModel.SetDatasetIsOpen | src/models/main_model.py:62-68 | the open flag is stored and `dataset_opened` or `dataset_closed` is emitted according to its value |
| MainState.MainModel.SetSourceNames | src/models/main_model.py:74-77 | the source-name setter stores the list and emits `source_names_changed` with it |
| MainState.MainModel.SetSelectedSource | src/models/main_model.py:83-86 | the source setter stores the name and emits `selected_source_changed` with it |
| MainState.BrowseThenSelect | src/models/main_model.py:42-56 | browsing to another patch and then selecting a module again brings the patch index back to 0, keeps the module selected last, and logs the five signals in order |
| MainWindow.Less | src/components/mainwindow.py:482-483 | the comparison behind `min`/`max` raises only TypeError (for a mix of types Python cannot order); NaN compares false and booleans count as 0 and 1 |
| MainWindow.ExtremeNumbers | src/components/mainwindow.py:482-483 | the `min`/`max` loop over plain numbers succeeds and returns a value it was given that bounds every later value |
| MainWindow.MinMaxNumbers | src/components/mainwindow.py:482-483 | on a non-empty column of numbers `min` is a member no greater than any value and `max` a member no smaller than any value |
| MainWindow.RangeForSpec | src/components/mainwindow.py:468-485 | an index outside the column list gives the fallback range -5..5; a non-empty numeric column gives a range from its smallest to its largest value that contains every value |
| MainWindow.WindowModel.constructor | src/components/mainwindow.py:585-598 | the window model starts with every field None, the dataset closed, and no signal emitted |
| MainWindow.WindowModel.SetMeta | src/components/mainwindow.py:604-607 | the meta setter stores the value and emits `meta_changed`, nothing else changes |
| MainWindow.WindowModel.SetAppMode | src/components/mainwindow.py:613-616 | the mode setter stores the mode and emits `app_mode_changed` with it |
| MainWindow.WindowModel.SetMinVal | src/components/map.py:154-157 | the map model's `min_val` setter stores the value, emits `min_val_changed` with it, and changes nothing else |
| MainWindow.WindowModel.SetMaxVal | src/components/map.py:163-166 | the map model's `max_val` setter stores the value, emits `max_val_changed` with it, and changes nothing else |
| MainWindow.WindowModel.SetSelectedColumn | src/components/mainwindow.py:622-625 | the column setter stores the index and emits `selected_column_changed` with it |
| MainWindow.WindowModel.SetTrackId | src/components/mainwindow.py:631-635 | the module setter stores the track id and emits `track_id_changed` with the previous and the new id |
| MainWindow.WindowModel.SetDatasetIsOpen | src/components/mainwindow.py:641-647 | the open flag is stored and `dataset_opened` or `dataset_closed` emitted according to it |
| MainWindow.WindowModel.SetSourceNames | src/components/mainwindow.py:653-656 | the source-name setter stores the list and emits `source_names_changed` with it |
| MainWindow.WindowModel.SetSelectedSource | src/components/mainwindow.py:662-665 | the source setter stores the name and emits `selected_source_changed` with it |
| MainWindow.WindowModel.SetDatasetStats | src/components/mainwindow.py:671-674 | the statistics setter stores them and emits `dataset_stats_changed` with them |
| MainWindow.WindowController.constructor | src/components/mainwindow.py:371-373 | the controller keeps the model it is given |
| MainWindow.WindowController.Reset | src/components/mainwindow.py:375-387 | `reset` clears every model field (the map range excepted) and emits the eight setter signals in the order of the assignments, the track-id signal carrying the module selected before |
| MainWindow.WindowController.UpdateSourceNames | src/components/mainwindow.py:414-428 | the source list becomes the module layout followed by the sorted analyses, a missing `analyses` directory reading as none, with the sun-filter analysis dropped; it is stored and announced |
| MainWindow.WindowController.DeleteSource | src/components/mainwindow.py:452-465 | nothing happens without a dataset, without a name or for the module layout; otherwise `source_deleted` is emitted exactly when the shown source is deleted, the analysis disappears from the listing and the list of sources is read again |
| MainWindow.WindowController.GetColumnNames | src/components/mainwindow.py:489-497 | the column names are the empty list without a dataset, TypeError with no document loaded, and otherwise every property name but `track_id`, sorted and each once |
| MainWindow.WindowController.GetColumn | src/components/mainwindow.py:511-525 | the column query on the model: the empty dictionary without a dataset, TypeError with no document, otherwise the column dictionary |
| MainWindow.WindowController.GetSelectedColumn | src/components/mainwindow.py:499-509 | the empty dictionary when no column is selected or the index has no column (IndexError is caught); otherwise the dictionary of the column at that index |
| MainWindow.WindowController.SetSelectedColumn | src/components/mainwindow.py:467-487 | the map's colour range is set first (fallback, or the column's minimum and maximum), then the selected column; `min_val_changed`, `max_val_changed` and `selected_column_changed` are emitted in that order; when a query or a comparison raises nothing is set or emitted |
| MainWindow.WindowController.UpdateDatasetStats | src/components/mainwindow.py:527-570 | without a dataset nothing happens; with no document TypeError; otherwise the statistics are stored and announced, their module count being the number of polygon features |
| MainControl.SelectedFromRaises | src/controllers/main_controller.py:85-91 | with no guard around the lookup, the selected column raises IndexError exactly for an index outside the column names (always, without a dataset) or when the column query itself does |
| MainControl.MainController.constructor | src/controllers/main_controller.py:15-17 | the controller keeps the model it is given and has emitted no `source_deleted` |
| MainControl.MainController.CloseDataset | src/controllers/main_controller.py:28-31 | closing resets the model silently and then emits exactly `dataset_closed`, leaving the cleared state |
| MainControl.MainController.UpdateSourceNames | src/controllers/main_controller.py:33-40 | the source list becomes the module layout followed by the sorted analyses; a dataset without an `analyses` directory raises FileNotFoundError and stores nothing |
| MainControl.MainController.DeleteSource | src/controllers/main_controller.py:60-73 | nothing happens without a dataset, without a name or for the module layout; otherwise `source_deleted` is counted exactly when the shown source is deleted, the analysis leaves the listing and the source list is read again |
| MainControl.MainController.GetColumnNames | src/controllers/main_controller.py:75-83 | the column names are the empty list without a dataset, TypeError with no document, otherwise every property name but `track_id`, sorted and each once |
| MainControl.MainController.GetColumn | src/controllers/main_controller.py:93-107 | the column query on the model, as in the main window |
| MainControl.MainController.GetSelectedColumn | src/controllers/main_controller.py:85-91 | the empty dictionary only when no column is selected; otherwise the unguarded lookup of the selected index in the column names |
| Columns.Put | src/components/mainwindow.py:522 | `d[k] = v` adds the key once: a known key keeps its place, a new one is appended |
| Columns.LookupPut | src/components/mainwindow.py:522 | after `d[k] = v`, looking up `k` gives `v` and every other key is unaffected |
| Columns.LookupKeys | src/components/mainwindow.py:515-525 | a lookup succeeds exactly for the keys of the dictionary |
| Columns.Values | src/components/mainwindow.py:482-483 | `dict.values()` lists the values in insertion order |
| Columns.NanForNone | src/components/mainwindow.py:520-521 | a null value becomes NaN, any other value is kept |
| Columns.GetColumn | src/components/mainwindow.py:515-525 | the loop of `get_column` computes the column dictionary of its specification |
| Columns.ColumnRaises | src/components/mainwindow.py:516-517 | the column raises, and only KeyError, exactly when some feature has no `track_id` |
| Columns.ColumnKeys | src/components/mainwindow.py:516-524 | the column holds exactly the track ids of the features that carry the column |
| Columns.ColumnKeeps | src/components/mainwindow.py:518-524 | a track id no later feature holds keeps the value it had |
| Columns.ColumnLast | src/components/mainwindow.py:518-524 | a track id maps to the value (None as NaN) of the last feature that holds it |
| Columns.GetColumnNames | src/components/mainwindow.py:493-497 | the names are every property name of every feature except `track_id`, sorted and without duplicates |
| Columns.ColumnNamesUnique | src/components/mainwindow.py:497 | that description fixes the list: any two lists meeting it are equal |
| Columns.QueryColumnNames | src/components/mainwindow.py:489-497 | no dataset gives the empty list, no document TypeError, otherwise the column names |
| Columns.QueryColumn | src/components/mainwindow.py:511-525 | no dataset gives the empty dictionary, no document TypeError, otherwise the column |
| Columns.ValidDatasetSpec | src/components/mainwindow.py:183-193 | a directory is a dataset exactly when `mapping`, `patches`, `patches_final` and `splitted` are all among its subdirectories, and extra subdirectories never change that; `valid_dataset` of main_bak.py:441-451 is the same probe |
| Columns.NumModules | src/components/mainwindow.py:531-536 | the module count is the number of features whose geometry is a polygon |
| Columns.FilterCount | src/components/mainwindow.py:531-536 | the polygons kept by a filter are as many as the positions holding a polygon |
| Sources.SortedAnalyses | src/controllers/main_controller.py:37-38 | `sorted` of the listing is ordered and a permutation of it |
| Sources.SourceNames | src/controllers/main_controller.py:33-40 | the module layout first, then the analyses sorted and each as often as listed; FileNotFoundError exactly when a dataset is open and has no `analyses` directory |
| Sources.DropSunFilter | src/components/mainwindow.py:423-427 | removing "Sun Filter" after the module layout keeps the layout first and the rest sorted, and removes exactly that name |
| Sources.DisplayedSourceNamesSpec | src/components/mainwindow.py:414-428 | the main window's list starts with the module layout, is sorted after it, never holds the sun filter, and holds every other analysis exactly when the dataset lists it |
| Sources.Deleted | src/controllers/main_controller.py:70-72 | `rmtree` with errors ignored leaves a missing `analyses` directory missing |
| Sources.DeletedSpec | src/controllers/main_controller.py:70-72 | after the deletion the listing holds exactly the other analyses, still without duplicates |
| LegacyApp.Dataset.constructor | main_bak.py:532-544 | a new dataset object is cleared and has emitted nothing |
| LegacyApp.Dataset.Reset | main_bak.py:537-544 | `reset` clears every field without a signal |
| LegacyApp.Dataset.Close | main_bak.py:594-598 | closing clears the dataset and emits exactly `closed` |
| LegacyApp.Dataset.GetColumn | main_bak.py:546-559 | the same column query as the main window |
| LegacyApp.Dataset.UpdateSourceNames | main_bak.py:561-568 | the list is reset to empty first; it then becomes the module layout and the sorted analyses and `source_names_updated` is emitted, or FileNotFoundError leaves it empty and emits nothing |
| LegacyApp.Dataset.DeleteSource | main_bak.py:570-582 | nothing without a dataset, a name, or for the module layout; otherwise `source_deleted` when the shown source goes, the analysis leaves the listing and the list is read again |
| LegacyApp.ModuleTemperatures.constructor | main_bak.py:274-297 | a new window has no thread, an empty bar and label, and the default name "Analysis <timestamp>" |
| LegacyApp.ModuleTemperatures.Reset | main_bak.py:286-297 | `reset` forgets the thread, empties the bar and label and sets a fresh default name |
| LegacyApp.ModuleTemperatures.ReportProgress | main_bak.py:299-310 | the bar shows the progress rounded to a percentage half-to-even and the label the description, cancelled or not |
| LegacyApp.ModuleTemperatures.Compute | main_bak.py:312-349 | nothing without an open dataset; TypeError when the sources were never listed; a name already taken starts nothing and shows the message; otherwise a fresh, uncancelled worker gets the dataset directory, the name and both settings |
| LegacyApp.ModuleTemperatures.Cancel | main_bak.py:361-364 | the worker's cancel flag is raised exactly while a thread exists |
| LegacyApp.CancelAfterReset | main_bak.py:286-287 | after `reset`, `cancel` no longer reaches the previous worker, whose flag stays as it was |
| AnnotationEditor.CheckboxName | src/components/annotation_editor.py:35 | the checkbox of a defect is named with the 16-character prefix `defect_checkbox_` before the defect |
| AnnotationEditor.DefectName | src/components/annotation_editor.py:59-94 | `checkbox_name[16:]` is empty for a name of at most 16 characters and otherwise 16 characters shorter |
| AnnotationEditor.DefectOfCheckbox | src/components/annotation_editor.py:35 | reading the defect back from the name its checkbox was given yields that defect (the same code recurs at lines 94) |
| AnnotationEditor.ToggledSpec | src/components/annotation_editor.py:97-108 | ticking appends a defect only when absent and unticking removes it only when present: a list stays free of duplicates, holds the defect exactly when ticked, keeps every other defect, and changes exactly when the defect's presence disagreed with the box |
| AnnotationEditor.AnnotationEditorModel.constructor | src/components/annotation_editor.py:137-139 | the editor model starts without annotation data |
| AnnotationEditor.AnnotationEditorModel.SetAnnotationData | src/components/annotation_editor.py:72-74 | opening a dataset gives every module an empty defect list and announces it once; without a list of modules TypeError and nothing changes |
| AnnotationEditor.AnnotationEditorModel.ResetAnnotationData | src/components/annotation_editor.py:76-78 | closing the dataset drops the annotation data and announces it |
| AnnotationEditor.AnnotationEditorModel.UpdateAnnotationData | src/components/annotation_editor.py:80-108 | nothing happens without an open dataset, data or a module; a module without a list raises KeyError; otherwise only the selected module's list is toggled, and `annotation_data_changed` is emitted exactly when it changed |
| AnnotationEditor.UpdateCheckboxStates | src/components/annotation_editor.py:26-63 | the boxes are left as they are without an open dataset, data or a module; after those guards, a view whose defect schema could not be read has no boxes and raises AttributeError; a module without a list raises KeyError; otherwise each box is checked exactly when its defect is in the module's list |
| AnnotationEditor.TickThenRefresh | src/components/annotation_editor.py:22-23 | ticking a defect's box and then refreshing the boxes shows that box ticked, and the module's list holds the defect once (the same code recurs at lines 80-108) |
| StringEditor.StringIdSplits | src/components/string_editor.py:117-122 | the string id joins the tracker, array and inverter ids with `_` (the format has three fields, so the typed string id is dropped); without underscores in the ids they can be read back from it |
| StringEditor.PlantId | src/components/string_editor.py:139 | a module's plant id is the string id, `_`, and its position written with at least two digits |
| StringEditor.PlantIdInjective | src/components/string_editor.py:138-140 | two modules of the same string never share a plant id |
| StringEditor.MappingFrom | src/components/string_editor.py:138-140 | the mapping entries pair each module's plant id with its track id, in drawing order |
| StringEditor.TrackIdsFromSpec | src/components/string_editor.py:133 | the comprehension succeeds exactly when every drawn module has a track id, then lists them in order; otherwise it raises KeyError |
| StringEditor.InsertedSpec | src/components/string_editor.py:124-140 | inserting a string sets its entry and keeps every other string; the mapping keeps its old entries and grows by one entry per module, with pairwise different plant ids |
| StringEditor.StringEditorModel.constructor | src/components/string_editor.py:191-200 | the editor model starts with empty ids, no reverse direction, no drawing and no annotation |
| StringEditor.StringEditorModel.SetTrackerId | src/components/string_editor.py:206-209 | the tracker-id setter stores the id and emits it, leaving the other fields |
| StringEditor.StringEditorModel.SetArrayId | src/components/string_editor.py:215-218 | the array-id setter stores the id and emits it, leaving the other fields |
| StringEditor.StringEditorModel.SetInverterId | src/components/string_editor.py:224-227 | the inverter-id setter stores the id and emits it, leaving the other fields |
| StringEditor.StringEditorModel.SetStringId | src/components/string_editor.py:233-236 | the string-id setter stores the id and emits it, leaving the other fields |
| StringEditor.StringEditorModel.SetReverseDirection | src/components/string_editor.py:242-249 | a check state of 0 stores and emits False, any other value True |
| StringEditor.StringEditorModel.SetDrawingString | src/components/string_editor.py:255-258 | the drawing flag is stored and emitted |
| StringEditor.StringEditorModel.SetStringAnnotationData | src/components/string_editor.py:264-268 | the annotation is stored and `string_annotation_data_changed` emitted |
| StringEditor.StringEditorModel.ResetTempStringData | src/components/string_editor.py:156-162 | clearing the string being drawn empties the four ids and both flags through the setters, in order, and leaves the annotation |
| StringEditor.CollectTrackIds | src/components/string_editor.py:133 | the track ids of the drawn modules in order, or KeyError exactly when one has none |
| StringEditor.AppendMapping | src/components/string_editor.py:138-140 | the loop appends, after the old mapping, one `(plant id, track id)` per module in order |
| StringEditor.UpdateStringAnnotationData | src/components/string_editor.py:110-143 | a drawn module without a track id raises KeyError and changes nothing; otherwise the copied annotation with the string inserted is stored and announced, then the string being drawn is cleared |
| StringEditor.ConfirmTwice | src/components/string_editor.py:132-140 | confirming the same string twice keeps one entry for it but appends its modules' plant ids a second time |
| AnalysisDetails.Upper | src/components/analysis_details.py:23 | upper-casing changes only a lower-case letter, into an upper-case one |
| AnalysisDetails.Lower | src/components/analysis_details.py:23 | lower-casing changes only an upper-case letter, into a lower-case one |
| AnalysisDetails.LowerAll | src/components/analysis_details.py:23 | lower-casing a word maps every character and keeps the length |
| AnalysisDetails.Capitalize | src/components/analysis_details.py:23 | `str.capitalize` makes the first character upper case and every other one lower case, keeping the length |
| AnalysisDetails.CapitalizeAll | src/components/analysis_details.py:23 | capitalizing the words keeps one word per part |
| AnalysisDetails.FirstIndexOf | src/components/analysis_details.py:23 | the first occurrence of a character, absent exactly when the character does not occur |
| AnalysisDetails.ToDisplayChars | src/components/analysis_details.py:21-23 | `to_display` keeps the length and maps each character on its own: an underscore becomes a space, a word's first character is upper-cased and every other lower-cased |
| AnalysisDetails.DisplayConcat | src/components/analysis_details.py:23 | joining a capitalized first word and an already displayed rest with a space displays the underscore-joined name |
| AnalysisDetails.ToDisplaySpec | src/components/analysis_details.py:21-23 | a display name has the setting name's length and no underscore, and (for a name without spaces) its spaces sit exactly where the underscores were |
| AnalysisDetails.TruncateString | src/components/analysis_details.py:25-29 | a value up to the limit is kept; a longer one is cut to the limit and marked with `...` |
| AnalysisDetails.TruncateIdempotent | src/components/analysis_details.py:25-29 | truncating a truncated value again changes nothing |
| AnalysisDetails.HyperparameterLines | src/components/analysis_details.py:44-48 | one line `<display name>: <truncated value>` per hyperparameter, in the dictionary's order |
| AnalysisDetails.TextOf | src/components/analysis_details.py:41-43 | a meta entry used as text: KeyError when missing, TypeError when not a string |
| AnalysisDetails.ItemsOf | src/components/analysis_details.py:47 | `meta["hyperparameters"].items()`: KeyError when missing, AttributeError when not a dictionary |
| AnalysisDetails.AnalysisDetailsView.Update | src/components/analysis_details.py:31-50 | without meta data every field is cleared; otherwise type, timestamp, path and hyperparameters are set in that order, and a missing or malformed entry raises after the fields before it were set |
| AnalysisDetails.BuildLines | src/components/analysis_details.py:44-48 | the comprehension builds exactly the hyperparameter lines |
| AnalysisDetails.HyperparameterLinesAppend | src/components/analysis_details.py:44-48 | one more hyperparameter adds exactly its line at the end |
| PatchNames.FrameIndex | src/components/source_frame.py:90 | `int(re.findall(r'\d+', name)[0])` fails exactly when the name holds no digit |
| PatchNames.FrameFileName | src/components/source_frame.py:92 | `frame_{:06d}` plus the extension: it starts with `frame_`, ends with the extension and has at least six digits |
| PatchNames.FrameIndexOfFileName | src/components/source_frame.py:90-92 | the frame number is read back from the frame's file name |
| PatchNames.FramePathSpec | src/components/source_frame.py:91-92 | the frame path's basename is the frame file name, which gives the frame number back |
| PatchNames.FrameFileNameNoSlash | src/components/source_frame.py:92 | the frame file name holds no path separator |
| PatchNames.FramePathInjective | src/components/source_frame.py:91-92 | different frames never share a path |
| PatchNames.StemOf | src/components/source_frame.py:108 | the stem is the name up to its first `.` and holds none |
| PatchNames.StemIsFirstPiece | src/components/source_frame.py:108 | the stem is the first piece of `str.split` on `.` |
| PatchNames.FrameName | src/components/source_frame.py:109 | `stem[:12]` has twelve characters, or the whole stem when shorter |
| PatchNames.MaskName | src/components/source_frame.py:110 | `stem[13:]` skips the separator and is empty for a stem of at most 13 characters |
| PatchNames.MetaKey | src/components/source_frame.py:108-111 | the patch-metadata key starts with the module's track id |
| PatchNames.NamesCoverStem | src/components/source_frame.py:109-110 | frame and mask name cover the stem but for its 13th character |
| PatchNames.MetaKeyOf | src/components/source_frame.py:108-111 | a file named frame, separator, mask and extension is keyed by exactly that frame and mask name |
| PatchNames.StemOfPrefix | src/components/source_frame.py:108 | the stem of a dot-free name followed by an extension is that name |
| PatchNames.ColormapOf | src/components/source_frame.py:99-105 | no colour map for an index up to 0, PLASMA for 1, JET for 2, KeyError above |
| PatchNames.SortedFiles | src/components/source_frame.py:87-88 | the sorted listing has one path per entry |
| PatchNames.JoinAll | src/components/source_frame.py:87-88 | every entry is joined to the directory, in order |
| PatchNames.SortedFilesSpec | src/components/source_frame.py:87-88 | the listing is sorted, a permutation of the joined entries, and starts with the least of them |
| SourceFrame.SelectPatch | src/components/source_frame.py:89 | `image_files[patch_idx]` is a listed file; TypeError without an index, IndexError outside the list (negative indices count from the end) |
| SourceFrame.Quadrilateral | src/components/source_frame.py:111 | the stored quadrilateral of the patch; TypeError without patch metadata, KeyError for a missing patch or entry |
| SourceFrame.RenderPatchSpec | src/components/source_frame.py:90-112 | a rendered frame is the one numbered by the patch file's first digit run under `splitted/radiometric`, readable, with the model's range and colour map and the patch's stored quadrilateral |
| SourceFrame.RenderPatchErrors | src/components/source_frame.py:90-111 | no digit in the name raises IndexError, an unreadable frame TypeError; rendering succeeds exactly when the frame is readable, the colour map known and the quadrilateral stored |
| SourceFrame.RenderIndexError | src/components/source_frame.py:87-90 | an empty patch directory, or a single patch file with no digit, raises IndexError |
| SourceFrame.SourceFrameModel.constructor | src/components/source_frame.py:29-47 | the model as the view leaves it: 30 to 50 degrees, no colour map, the placeholder frame; the log holds the placeholder emitted while the slots are connected, then each default in the order it is assigned |
| SourceFrame.SourceFrameModel.SetMinTemp | src/models/source_frame_model.py:21-24 | the setter stores the lower bound and emits it, nothing else changes |
| SourceFrame.SourceFrameModel.SetMaxTemp | src/models/source_frame_model.py:30-33 | the setter stores the upper bound and emits it, nothing else changes |
| SourceFrame.SourceFrameModel.SetColormap | src/models/source_frame_model.py:39-42 | the setter stores the colour-map index and emits it, nothing else changes |
| SourceFrame.SourceFrameModel.SetFrame | src/models/source_frame_model.py:48-53 | None becomes the placeholder image, and the stored frame is the one announced |
| SourceFrame.UpdateSourceFrame | src/controllers/source_frame_controller.py:18-60 | nothing without an open dataset or a module; otherwise the rendered frame is stored and announced, or the exception is raised and the model left as it was; the range and colour map never change |
| SourceFrameRgb.RenderRgb | src/components/source_frame_rgb.py:73-89 | a rendered RGB view is always a frame, never the placeholder |
| SourceFrameRgb.RenderRgbSpec | src/components/source_frame_rgb.py:73-89 | no patches raises IndexError; a rendered frame comes from the first sorted patch file, is read from `splitted/rgb/frame_NNNNNN.jpg`, and carries the stored quadrilateral exactly in RGB mode |
| SourceFrameRgb.RenderRgbIgnoresMeta | src/components/source_frame_rgb.py:84 | outside RGB mode the patch metadata is never read |
| SourceFrameRgb.SourceFrameModelRgb.constructor | src/components/source_frame_rgb.py:35 | the model as the view leaves it: the placeholder frame, announced once (the same code recurs at lines 105-107) |
| SourceFrameRgb.SourceFrameModelRgb.SetFrame | src/components/source_frame_rgb.py:113-118 | None becomes the placeholder image, and the stored frame is the one announced |
| SourceFrameRgb.UpdateSourceFrame | src/components/source_frame_rgb.py:59-98 | without an open dataset or a module the placeholder is shown; otherwise the rendered frame is stored, or the update fails (a lookup's exception, or OpenCV refusing an unreadable frame) and the model is left as it was |
| PyList.SliceBound | src/analysis/temperatures.py:29 | a slice bound, negative ones counted from the end, is clamped into the sequence |
| PyList.Index | src/components/source_frame.py:89 | `xs[i]` finds an element exactly when `-len(xs) <= i < len(xs)`, at `i` or, for a negative `i`, at `len(xs) + i` |
| PyList.SymmetricSlice | src/analysis/temperatures.py:29 | `patch[m:-m]` is empty for `m == 0` and otherwise drops `m` entries at each end |
| PyList.RemoveFirst | src/components/mainwindow.py:424-427 | `list.remove` (with ValueError caught) drops one occurrence when present and leaves the list otherwise |
| PyList.RemoveFirstNoDup | src/components/annotation_editor.py:107 | removing from a list without duplicates takes the element out entirely and keeps every other one |
| PyList.FilterSpec | src/components/mainwindow.py:531-536 | a filter keeps, in order, exactly the elements at the positions satisfying the condition |
| PyList.FilterMembership | src/components/mainwindow.py:531-536 | an element is kept exactly when it is present and satisfies the condition |
| PyList.FilterIdempotent | src/components/mainwindow.py:531-536 | filtering twice by the same condition is filtering once |
| PyList.FilterAppend | src/components/mainwindow.py:531-536 | filtering a concatenation filters each part |
| Text.LexLeTotal | src/components/mainwindow.py:497 | string comparison by code points is total |
| Text.LexLeTrans | src/components/mainwindow.py:497 | string comparison by code points is transitive |
| Text.LexLeAntisym | src/components/mainwindow.py:497 | two strings each no greater than the other are equal |
| Text.SortSpec | src/components/mainwindow.py:497 | `sorted` on strings returns an ordered permutation of its input |
| Text.SortedUnique | src/components/mainwindow.py:497 | there is only one ordered permutation of a list of strings |
| Text.SortOrderIndependent | src/components/source_frame.py:87-88 | `sorted` does not depend on the order the directory listing yields |
| Text.Split | src/components/analysis_details.py:23 | `str.split` on one character yields at least one piece |
| Text.JoinSplit | src/components/analysis_details.py:23 | joining the pieces of a split with the same character gives the string back |
| Text.SplitPieces | src/components/analysis_details.py:23 | no piece of a split holds the separator |
| Text.Basename | src/components/source_frame.py:90 | `os.path.basename` is the part after the last `/`, a suffix of the path with no `/` |
| Text.PathJoin | src/components/source_frame.py:87-92 | `os.path.join` ends with its second part, which replaces the first when absolute |
| Text.BasenameJoin | src/components/source_frame.py:87-90 | the basename of a joined path is its last part |
| Text.SplitExtRoot | src/analysis/temperatures.py:37 | `os.path.splitext(name)[0]` is the name, or the name cut before a last `.` that has no `.` after it |
| Text.StemOfName | src/analysis/temperatures.py:37 | the root of `<root>.<extension>` is the root |
| Text.FormatInt | src/components/source_frame.py:92 | `{:0Nd}` gives only digits and at least N of them |
| Text.ParseFormat | src/components/source_frame.py:90-92 | `int` of a zero-padded number gives the number back |
| Text.FormatInjective | src/components/string_editor.py:139 | different numbers are formatted differently |
| Text.FormatWidth | src/components/source_frame.py:92 | a number with at most N digits is formatted with exactly N |
| Text.FirstDigitRun | src/components/source_frame.py:90 | the first run of digits exists exactly when a digit occurs |
| Text.FirstDigitRunOf | src/components/source_frame.py:90 | a digit-free prefix, a run of digits and a tail not starting with a digit yield that run |
| Display.CalibratedExtreme | src/analysis/temperatures.py:50-53 | for a non-negative gain the coldest raw value converts to the coldest temperature and the hottest to the hottest |
| LegacyTemperatures.FramesFirstFailure | analysis/temperatures.py:80-85 | the module loop reports progress for every module before the first failing one and stops with that module's exception |
| LegacyTemperatures.FramesComplete | analysis/temperatures.py:78-88 | when every module has a patch, the collected temperatures hold exactly the listed modules, each with its own patch temperatures, and both frames are filled from them |
| LegacyTemperatures.FramesAggregated | analysis/temperatures.py:78-88 | when every listed module decodes, no exception is raised, both frames keep their rows, and every row holds its module's aggregates, or NaN when the module is not listed |
| LegacyTemperatures.RowsAggregated | analysis/temperatures.py:46-54 | inserting the collected temperatures keeps the rows and gives each the aggregates of its module, or NaN |
| Temperatures.FinishedOnlyLast | src/analysis/temperatures.py:97 | progress reports followed by a tail in which only the last event is `finished` hold `finished` exactly once, at the end (the same code recurs at lines 123, 180) |
| Display.ToCelsius | src/common.py:10-12 | the fixed conversion of `to_celsius`; `FixedIsCalibrated` states that it is the calibrated conversion with gain 0.04 and offset -273.15 |
| Display.Calibrated | src/analysis/temperatures.py:50-53 | the calibrated conversion `raw * gain + offset`; its properties are stated by `CalibratedAll`, `CalibratedMin`, `CalibratedMax`, `CalibratedMean` and `CalibratedExtreme` |
| Display.Levels | src/common.py:18-19 | one grey level per value of the clamped image; `LevelSpec` states that each lies in 0..255, `vmin` gives 0, `vmax` 255, and the mapping is monotone |
| Stats.Mean | src/analysis/temperatures.py:52 | `np.mean` of a non-empty list; `MeanOpt` extends it to the empty list, where `np.mean` gives NaN, and `MeanBetween` and `MeanWithin` bound it by the minimum and maximum |
| Stats.Median | src/analysis/temperatures.py:53 | `np.median` of a non-empty list; `MedianOpt` ties it to pandas `median`, `MedianBetween` bounds it and `MedianPerm` makes it independent of order |
| Text.Sort | src/components/mainwindow.py:497 | `sorted` on strings; `SortSpec` states an ordered permutation of the input and `SortOrderIndependent` independence of the input's order |
| AnalysisDetails.ToDisplay | src/components/analysis_details.py:21-23 | `to_display`; `ToDisplayChars` and `ToDisplaySpec` state that it keeps the length, turns each underscore into a space, upper-cases each word's first character and lower-cases the rest |
| PatchStatistics.TruncatePatch | src/analysis/temperatures.py:25-30 | `truncate_patch`; `TruncateInterior` states that a margin of `m >= 1` keeps exactly the interior pixels and `TruncateZeroMargin` that a zero margin gives the empty patch |
| Neighbourhood.NeighbourMedian | src/analysis/temperatures.py:100-101 | the median over a module's other neighbours; `NeighbourMedianMissing` and `NeighbourMedianWithin` state when it is missing and that it stays within the neighbours' bounds |
| LegacyTemperatures.NeighboursMedianSpec | analysis/temperatures.py:57-71 | `get_neighbours_median_temp`; `NeighboursMedianOk` states when it succeeds and `NeighboursMedianValues` what each entry is |
| Sources.DisplayedSourceNames | src/components/mainwindow.py:414-428 | the names the main window lists; `DisplayedSourceNamesSpec` states their order and contents |
| SourceFrame.RenderPatch | src/components/source_frame.py:90-112 | rendering a patch's source frame; `RenderPatchSpec` states which frame is rendered and `RenderPatchErrors` when it raises |
| StringEditor.StringId | src/components/string_editor.py:117-122 | the string id format; `StringIdSplits` states that it joins the three ids with `_` |
| StringEditor.TrackIdsFrom | src/components/string_editor.py:133 | the track id comprehension; `TrackIdsFromSpec` states when it succeeds and what it lists |
| StringEditor.Inserted | src/components/string_editor.py:124-140 | inserting a string; `InsertedSpec` states the new entry and that every other string is kept |
| PatchNames.FramePath | src/components/source_frame.py:91-92 | the source frame path; `FramePathSpec` states that it gives the frame number back and `FramePathInjective` that different frames have different paths |
| MainWindow.RangeFor | src/components/mainwindow.py:468-485 | the map range for a selected column; `RangeForSpec` states the fallback -5..5 for an index outside the list and a range bounding every value of a non-empty numeric column |
| MainControl.SelectedFrom | src/controllers/main_controller.py:85-91 | the selected column lookup; `SelectedFromRaises` states that it raises IndexError exactly for an index outside the list |
| Columns.ColumnFrom | src/components/mainwindow.py:515-525 | the column dictionary `get_column` builds; `GetColumn`, `ColumnRaises`, `ColumnKeys`, `ColumnKeeps` and `ColumnLast` state what it holds |
| Columns.ValidDataset | src/components/mainwindow.py:183-193 | the dataset test; `ValidDatasetSpec` states that it holds exactly when the four sub-directories exist |
| Temperatures.RunSpec | src/analysis/temperatures.py:108-180 | the outcome and final state of a run; `Worker.Run` computes it and `RunEnds` states that every run ends properly |
| Temperatures.LoadModulesSpec | src/analysis/temperatures.py:17-23 | what loading the layout yields; `LoadModules` computes it and `LoadModulesShape` states when it succeeds |
| LegacyTemperatures.LoadModulesGdf | analysis/temperatures.py:22-29 | `load_modules_gdf`; `LoadModulesGdfShape` states when it succeeds and how rows split into corners and centers (a missing file, see below) |

## Left out

- Qt itself is not modelled: widgets, layouts, dialogs, message boxes, the generated forms, the map's JavaScript bridge, and signal delivery across threads. Emitted signals are appended to a log field, and a slot connected to a signal is called explicitly where the model needs its effect.
- Threads are not modelled. A worker runs to completion inside `Run`. The user's cancellation is an optional poll number, `Env.cancelAt`: from that poll of `is_cancelled` onwards the flag reads true, and with none it never does. This stands for whatever the user did meanwhile.
- File and image I/O is not modelled. Directory listings, glob results, decodable images and their pixels, `meta.pkl`, `meta.json` and GeoJSON documents are inputs. `json.dump` is recorded as an event and `shutil.rmtree` as a change to the modelled listing. Directory creation (`os.makedirs(..., exist_ok=True)`, `src/analysis/temperatures.py:160`) is not modelled: it is idempotent and the model has no directory tree to change. JSON and pickle parsing are left out.
- `open_dataset`, `load_source`/`loadSource`, `update_track_ids` and `Dataset.open`/`loadSource` are left out: each only reads files into the model and calls operations that are modelled.
- OpenCV and Qt image calls (`imread`, `cvtColor`, `applyColorMap`, `polylines`, `QImage`, `QPixmap`) are left out. A shown frame records the file it came from and how it was rendered, not its pixels. An unreadable radiometric frame is modelled as TypeError, and an unreadable RGB frame as an OpenCV error.
- The sklearn `KDTree` is replaced by a brute-force radius query over squared distances. It is inclusive at the radius, as `query_radius` is, and yields indices in row order; sklearn's order inside a neighbour set is not modelled, and the median does not depend on it.
- Only the parts of pandas and geopandas the analysis relies on are modelled: columns by name, rows in order, `median` skipping NaN. Index alignment and `DataFrame.update` in the merge are modelled as restoring the geometry per `(track_id, geometry_type)`. `load_modules_gdf` of the older analysis is modelled as splitting the rows by geometry type.
- pyproj/shapely reprojection is an abstract function passed to `Reproject`.
- Floating point is not modelled: temperatures are reals, NaN is a separate value or `None`, and `normalize`'s `uint8` cast is modelled as the floor of the scaled real.
- The flight duration and trajectory length of `update_dataset_stats` (`src/components/mainwindow.py:539-562`) are parameters. Only the module count is computed.
- `utcnow()` and the timestamps derived from it are parameters.
- `src/utils/common.py` is not part of this model. The gain/offset `to_celsius` it provides is modelled as `raw * gain + offset`.
- The sun-filter analysis worker (`src/analysis/sun_filter`) is not part of this model. `AnalysisController.Compute` creates its handle like any other worker's.
- `src/components/analysis.py:178-184`, `src/components/analysis_module_temperatures.py:112-116` and `src/controllers/analysis_module_temperatures_controller.py:38-42` pass fewer arguments than the worker's `__init__` takes (`src/analysis/temperatures.py:67-68`). The model takes each side as written: a controller records the arguments it passes, and `Temperatures.Worker.constructor` takes the worker's full list. The TypeError Python would raise when the two meet is not modelled.
- `print` calls, `closeEvent`, enabling/disabling widgets, `about`, the menu actions and the `patches.py` view are left out, since none of them changes modelled state.
- The hidden-file rule of `glob` (`*` skips names starting with `.`) is not modelled. The entries given to `PatchNames.SortedFiles` are the ones the pattern matches.
- `str(value)` of a hyperparameter and case mapping beyond ASCII are not modelled. `AnalysisDetails.Upper` and `AnalysisDetails.Lower` map ASCII letters only.
- Text.IsDigit: only the ASCII digits `0`-`9` count as digits. `\d` in `re.findall(r'\d+', name)` (`src/components/source_frame.py:90`, `src/components/source_frame_rgb.py:76`) also matches other Unicode decimal digits. Frame and patch file names are ASCII, so `PatchNames.FrameIndex` is unaffected.
- LegacyTemperatures.LoadModulesGdf: a missing layout file is modelled as FileNotFoundError. `gpd.read_file` really raises its I/O library's own error (`fiona.errors.DriverError` or `pyogrio.errors.DataSourceError`, depending on the engine). The model has no exception class for those libraries.
- MainWindow.WindowController.Reset: `patch_meta` is not a field of the modelled window model, so clearing it is not modelled. It is only loaded by `open_dataset`, which is left out, and the source-frame views take it as a parameter.
- `main_bak.py:29-30` imports `ModuleTemperaturesWorker` from `analysis/temperatures.py`, which defines no such class, and a top-level `common` module; as written, the file fails when it is imported. The `LegacyApp` members model it as if both imports resolved. A top-level `common.py` is not part of this model, so `to_celsius` and `normalize` are taken to be those of `src/common.py`. The worker `LegacyApp.ModuleTemperatures.Compute` starts is recorded by the arguments it is given.
- AnalysisComponent.AnalysisController.Compute: with an active tab other than the two analysis tabs, the source reuses the previous worker (`src/components/analysis.py:185`). If that worker has already finished, `deleteLater` has destroyed it and Qt raises RuntimeError. The model has no object lifetimes, so it records a launch of the previous worker's handle instead.
- SourceFrame.SourceFrameModel.constructor: `src/components/source_frame.py:29` hands the result of `setattr` (None) to `connect`. The model records the one `frame_changed` that the `setattr` emits. What Qt then does with a None slot is not modelled.
