# Lidar1D sweep segmentation — a Dafny model

The Lidar1D tools read a drone's 1D LIDAR stream and flight path. The stream holds `(angle, distance)` samples from back-to-back 360° sweeps with no separators. The tools cut the stream into sweeps, then attach the drone position to each sweep. This project models that core and proves its properties:

- **the sweep segmenter** `ExtractSweepsFromMeasurements`. It validates the two streams and finds the zero crossings (samples whose rounded angle is 0) and the gaps between them. From the gaps it estimates a nominal sweep length `numSamples`. Any distance within the window `numSamples + {-2..2}` is read as a *length marker*. The markers become cumulative `[minIndex, maxIndex)` slice bounds, and each sweep becomes a record: the angles unchanged, the distances converted from millimetres to metres.
- **the unit lookup** `GetUnitConversionScale` over `{m: 1, cm: 100, mm: 1000}`.
- **the sweep/position join** in the drivers' `main`. For every sweep id in the flight path, the record at index `id` receives `sweepID = id` and the position `pathCoordinates[id]`.

The segmenter exists in three copies. `libs/lidarutils.py` is the only one that rejects negative distances; `lidar_analysis.py` and `lidar1D.py` do not. `Segmenter.Extract` is the single definition, and its flag `rejectNegative` selects the distance check. The modules `LidarUtils`, `LidarAnalysis` and `Lidar1D` fix that flag for each file, and lemmas compare each copy with the library one. The three copies of `GetUnitConversionScale` are textually identical, so `Units` models them once.

Modelling choices:
- float64 values are idealised as `real`; integers are unbounded.
- `numpy.round` is round-half-even (`Numpy.RoundHalfEven`).
- `int()` truncates toward zero (`Numpy.Trunc`).
- Slicing follows Python's rules: negative bounds count from the end, and both bounds are clamped silently (`Numpy.Slice`).
- The histogram mode is a parameter, `estimate: seq<int> -> real`, applied to the gap list. Its value is real because numpy's histogram reports a float bin edge, which need not be an integer. With an integral estimate, the markers are exactly the integers within 2 of it (`Segmenter.IntegralWindow`).
- Sweep ids are unsigned 8-bit values (`UInt8`), as the flight-path parser produces them.
- The join is a pure update that returns a new list.

Modules and files: `common.dfy` (`Common`: result and error types, the sweep record), `numpy.dfy` (`Numpy`), `units.dfy` (`Units`), `segmenter.dfy` (`Segmenter`), `join.dfy` (`Join`), `lidarutils.dfy`, `lidar_analysis.dfy`, `lidar1d.dfy`, `task1.dfy` (one module per source file), `layout.dfy` (`Layout`: the segmenter on a stream where every block of samples is followed by its length marker), `scenarios.dfy` (concrete inputs from the test suite, boundary inputs at the angle limit, and short streams of blocks followed by their markers).

What the code does, where a reader might expect otherwise:
- **Sweeps do not partition the stream.** Sweep 0 is `[0, L0+1)`, one sample longer than its marker announces (`Segmenter.SweepSpan`, `Segmenter.FirstSweepHoldsExtraSample`). Sweep `k > 0` is `[S_k+k+1, S_{k+1}+k+1)`, where `S_k` is the sum of the first `k` lengths. Exactly one index is skipped between consecutive sweeps (`Segmenter.OneIndexSkipped`). Every other index up to the end of the last sweep is covered (`Segmenter.EveryIndexCoveredOrSkipped`).
- **When every block of `L_k` samples is followed by its marker `L_k`**, and the estimate is an integer within 2 of every `L_k` while no other distance falls in the window, the extraction reads back exactly the block lengths and returns one record per block (`Layout.MarkersFollowingSweepsRoundTrip`). The records do not line up with the blocks, though. Record 0 is samples `[0, L0]`: block 0 and its marker (`Layout.LaidOutSweep`). Record `k > 0` is samples `[S_k+k+1, S_{k+1}+k]`: block `k` without its first sample, then marker `k`. So every non-empty record ends with its marker (`Layout.LaidOutSweepEndsWithMarker`), and every later record misses its block's first sample. A later block of length 0 gives an empty record. The two-sweep stream with angles `[0,120,240,300,0,120,240,300]` and distances `[10,10,10,3,20,20,20,3]` shows this with a nominal length of 4. Its records are `[0,120,240,300]` with `[0.01,0.01,0.01,0.003]` and `[120,240,300]` with `[0.02,0.02,0.003]` (`Scenarios.MarkersAfterSweepsShiftLaterSweeps`).
- **The stream `[0,120,240,3]` / `[10,10,10,3]`** does not become one sweep of 3 samples. With a nominal length of 3, it becomes one sweep of all 4 samples, marker included (`Scenarios.MarkerAfterSweepIsKept`). That stream has a single zero crossing, so the gap list is empty. numpy's histogram of an empty list uses the default range, whose left edge is 0. The window is then `{-2..2}`, and no sweep is found (`Scenarios.SingleCrossingFindsNoSweep`).
- **Fewer than two zero crossings do not fail in the code.** The model therefore has no dedicated error for them: the estimator receives the empty gap list.
- **Only the library copy rejects negative distances.**

## Model

| member | source | states |
|---|---|---|
| Units.ParseUnit | libs/lidarutils.py:143-149 | exactly the names m, cm and mm are keys of the table, each naming its own unit |
| Units.PerMetre | libs/lidarutils.py:143 | every unit in the table stands for at least one of itself per metre, so the division at line 152 is defined |
| Units.Scale | libs/lidarutils.py:143-152 | the factor from unit a to unit b is positive, and a's count per metre times the factor is b's count per metre |
| Units.GetUnitConversionScale | libs/lidarutils.py:143-152 | succeeds exactly when both names are keys of the table; an unknown input unit is reported before an unknown output unit; on success the factor is the one between the two named units |
| Units.ScaleToSameUnit | libs/lidarutils.py:152 | converting a unit to itself gives factor 1 |
| Units.MillimetreMetreScales | libs/lidarutils.py:143-152 | mm→m is 0.001, m→mm is 1000, cm→mm is 10 |
| Units.ScalesCompose | libs/lidarutils.py:152 | the factor a→b times the factor b→c is the factor a→c |
| Units.ScaleRoundTrip | libs/lidarutils.py:152 | converting a→b and back multiplies by exactly 1 |
| Segmenter.Validate | libs/lidarutils.py:176-186 | passes exactly for equal-length, non-empty streams with angles in [0, 360] (360 included) and, when the copy checks it, no negative distance; otherwise it reports the first failing check in the source's order: a length mismatch exactly when the lengths differ, an empty array exactly when both streams are empty, then a negative distance, then an angle out of range; every reported negative distance or angle is witnessed by the input |
| LidarUtils.ExtractSweepsFromMeasurements | libs/lidarutils.py:155-230 | the library copy succeeds exactly on valid input with non-negative distances; equal-length, non-empty input with a negative distance is a NegativeDistance error; one record per marker; every announced length is non-negative |
| Numpy.RoundHalfEven | libs/lidarutils.py:189 | the result is within 1/2 of the value, and a tie goes to the even integer |
| Numpy.RoundsToZeroIff | libs/lidarutils.py:189 | a non-negative value rounds to 0 exactly when it is at most 1/2 |
| Numpy.IndicesWhere | libs/lidarutils.py:189 | the result is exactly the indices whose element satisfies the mask, strictly increasing and in range |
| Segmenter.ZeroCrossings | libs/lidarutils.py:189 | an index is a zero crossing exactly when its angle rounds to 0; the crossings are strictly increasing and in range |
| Segmenter.ZeroCrossingIffSmallAngle | libs/lidarutils.py:189 | on validated angles, index i is a zero crossing exactly when angles[i] ≤ 1/2 |
| Numpy.Diff | libs/lidarutils.py:190 | one difference fewer than elements (none for an empty input); each element plus its difference is the next element |
| Numpy.DiffPrefixSums | libs/lidarutils.py:190 | the first element plus the cumulative sum of the first k differences is element k |
| Numpy.Sum | libs/lidarutils.py:215-217 | the sum of a non-negative integer array is non-negative and at least each of its elements |
| Segmenter.Gaps | libs/lidarutils.py:190 | there is one gap fewer than zero crossings (none without crossings), and every gap is positive |
| Segmenter.GapsRebuildCrossings | libs/lidarutils.py:190 | the first crossing plus the sum of the first k gaps is crossing k |
| Segmenter.NominalLength | libs/lidarutils.py:191-192 | the nominal sweep length is the histogram estimate taken of the gap list alone (the estimate is a parameter; see "Left out") |
| Segmenter.ToleranceWindow | libs/lidarutils.py:196-198 | five strictly increasing values; a value is in the window exactly when it differs from numSamples by an integer in [-2, 2] |
| Segmenter.IntegralWindow | libs/lidarutils.py:196-198 | with an integral numSamples n, the window holds exactly the integers n-2 … n+2 |
| Segmenter.MarkerPositions | libs/lidarutils.py:202-203 | an index is a marker exactly when its distance is in the window; markers are in stream order |
| Segmenter.MarkerLengths | libs/lidarutils.py:200-209 | one length per marker, in stream order; each is its marker's distance truncated toward zero (at most the value and within 1 of it for a non-negative distance, at least the value and within 1 of it for a negative one) |
| Numpy.Trunc | libs/lidarutils.py:208 | `int()` rounds toward zero: below a non-negative value by less than 1, above a negative one by less than 1 |
| Segmenter.MarkerLengthsStep | libs/lidarutils.py:202-208 | scanning one more sample appends its truncated value exactly when it is a marker |
| Segmenter.ScanMarkers | libs/lidarutils.py:200-209 | the sweep counter equals the number of markers, and the lengths are the truncated marker values in stream order |
| Segmenter.MarkerLengthsNearNominal | libs/lidarutils.py:203-208 | with an integral numSamples n, every announced length equals its marker's value and lies in [n-2, n+2] |
| Segmenter.MarkerLengthsNonNegative | libs/lidarutils.py:183 | non-negative distances announce only non-negative lengths |
| Segmenter.SweepBounds | libs/lidarutils.py:213-217 | a sweep whose earlier lengths are non-negative starts at a non-negative index; a sweep of non-negative length ends no earlier than it starts |
| Segmenter.SweepSpan | libs/lidarutils.py:213-217 | sweep 0 has bounds (0, L0+1); every later sweep's bounds are exactly its announced length apart |
| Segmenter.OneIndexSkipped | libs/lidarutils.py:214-217 | each sweep starts exactly one index after the previous sweep ends |
| Segmenter.LastSweepEnd | libs/lidarutils.py:217 | the last sweep ends at the sum of all lengths plus the number of sweeps |
| Segmenter.SweepsInOrder | libs/lidarutils.py:213-217 | with non-negative lengths, every sweep's bounds are ordered and it ends strictly before any later sweep starts |
| Segmenter.EveryIndexCoveredOrSkipped | libs/lidarutils.py:213-217 | every index before the last sweep's end lies within some sweep's bounds or is the one index skipped just before a later sweep |
| Segmenter.FirstSweepHoldsExtraSample | libs/lidarutils.py:214-217 | sweep 0's record holds L0+1 samples, including the sample at index L0 (the marker, when markers follow their sweep) |
| LidarUtils.SweepsDisjointInOrder | libs/lidarutils.py:213-217 | in the library copy, sweeps are disjoint and come in stream order |
| Numpy.ClampIndex | libs/lidarutils.py:225 | a slice bound in range is kept; a bound past the end becomes the length; a negative bound counts from the end and stops at 0 |
| Numpy.Slice | libs/lidarutils.py:225 | in-range bounds give exactly that sub-sequence; an end past the array clamps to the array's end; a start at or past the end, or an empty or reversed range, gives an empty slice; never longer than the array |
| Segmenter.MillimetresToMetres | libs/lidarutils.py:226 | the factor applied to the distances is 1/1000 |
| Numpy.ScaleBy | libs/lidarutils.py:226 | multiplying an array by a factor keeps its length and multiplies every element by the factor |
| Segmenter.BuildRecords | libs/lidarutils.py:212-228 | one record per announced length; record k is computed from the cumulative-sum bounds of sweep k, even though the loop keeps only a running sum |
| Segmenter.Extract | libs/lidarutils.py:155-230 | succeeds exactly on valid input, failing otherwise with the validation error of the first failing check; the number of records is the number of markers; each record has as many angles as distances, and no id or position yet |
| Segmenter.ExtractSweepsFromMeasurements | libs/lidarutils.py:175-230 | the imperative algorithm (validate, crossings, gaps, estimate, scan, build) yields exactly the result of Segmenter.Extract |
| Segmenter.RecordBetween | libs/lidarutils.py:224-228 | a record always holds as many angles as distances when the streams agree in length, and has no id or position; with bounds inside the stream it holds exactly that slice of angles, and those distances divided by 1000; with an end past the stream the slice runs to the end; with a start at or past the end, or an end at or before a non-negative start, it is empty |
| Segmenter.SweepAt | libs/lidarutils.py:224-228 | the record of sweep k has as many angles as distances when the streams agree in length, and no id or position |
| Segmenter.RecordSlices | libs/lidarutils.py:224-228 | when a sweep's bounds lie in the stream, its record holds exactly those angles, and those distances divided by 1000 |
| Segmenter.LastSweepClamped | libs/lidarutils.py:225-227 | a sweep that starts inside the stream but ends past it holds the angles from its start to the end of the stream, and those distances divided by 1000 |
| Segmenter.SweepPastStreamEmpty | libs/lidarutils.py:213-227 | a sweep that starts at or past the end of the stream, or whose end is at or before its start (a later block of length 0), has no angles and no distances |
| Layout.MarkerIndicesIncreasing | libs/lidarutils.py:200-209 | with non-negative block lengths, the marker indices are strictly increasing and lie inside the stream |
| Layout.OnlyMarkersFound | libs/lidarutils.py:202-203 | on a laid-out stream, every index the scan takes for a marker is the index of some block's marker |
| Layout.EveryMarkerFound | libs/lidarutils.py:196-203 | with an integral estimate within 2 of a block's length, the scan takes that block's marker |
| Layout.MarkersFoundExactly | libs/lidarutils.py:196-203 | with an integral estimate within 2 of every block length, the scan finds exactly the marker indices, in stream order |
| Layout.MarkersReadBack | libs/lidarutils.py:200-209 | under the same conditions, the announced lengths are exactly the block lengths |
| Layout.IntegralMarkerLength | libs/lidarutils.py:208 | a marker holding an integral value announces exactly that value |
| Layout.MarkersFollowingSweepsRoundTrip | libs/lidarutils.py:155-230 | on a laid-out stream with such an estimate, extraction succeeds, reads back the block lengths, returns one record per block, and record k is the sweep with bounds k of those lengths |
| Layout.SweepBoundsLaidOut | libs/lidarutils.py:213-217 | sweep k runs from the start of block k (one past it for k > 0) to just past marker k |
| Layout.LaidOutBounds | libs/lidarutils.py:213-217 | with non-negative lengths those bounds are ordered, lie inside the stream, and span L_k samples (L_0 + 1 for sweep 0) |
| Layout.LaidOutSweep | libs/lidarutils.py:213-228 | record 0 holds block 0 and its marker; record k > 0 holds block k without its first sample, then marker k; distances divided by 1000 |
| Layout.LaidOutSweepEndsWithMarker | libs/lidarutils.py:213-228 | every non-empty record ends with its marker, whose value times 1000 is the block's length |
| LidarAnalysis.ExtractSweepsFromMeasurements | lidar_analysis.py:174-184 | succeeds exactly for equal-length, non-empty streams with angles in [0, 360]; negative distances pass; one record per marker |
| LidarAnalysis.AgreesWithLibraryCopy | lidar_analysis.py:186-225 | on non-negative distances this copy returns the same sweeps as the library copy; on otherwise valid input with a negative distance, it succeeds where the library copy reports NegativeDistance |
| LidarAnalysis.CombineWithFlightPath | lidar_analysis.py:398-409 | segment and join succeed exactly when the input is valid for this copy and every flight-path id is below both the number of sweeps and the number of positions; the record at index id then carries that id and the position at index id |
| Lidar1D.ExtractSweepsFromMeasurements | lidar1D.py:167-177 | succeeds exactly for equal-length, non-empty streams with angles in [0, 360]; negative distances pass; one record per marker; each record has as many angles as distances |
| Lidar1D.AgreesWithLibraryCopy | lidar1D.py:179-217 | on non-negative distances this copy returns the same sweeps as the library copy; on otherwise valid input with a negative distance, it succeeds where the library copy reports NegativeDistance |
| Join.Attach | task1.py:62-64 | the update sets the id and the position and leaves the samples untouched |
| Join.JoinFlightPath | task1.py:61-64 | succeeds exactly when every id is below both the number of records and the number of positions; otherwise fails with the first offending id in path order; on success the list length and all samples are unchanged, a listed index i carries id i and position i, and an unlisted record is unchanged |
| Join.ListedCons | task1.py:61-64 | an index is listed in a non-empty id list exactly when it is the first id or listed in the rest |
| Join.JoinIgnoresOrderAndRepetition | task1.py:61-64 | two id lists with the same members give the same outcome and the same records, whatever the order or repetition |
| Task1.CombineWithFlightPath | task1.py:53-64 | segmenting with the library copy and joining succeeds exactly on valid non-negative input whose ids are all below the number of sweeps and positions; the list has one record per marker; a listed index carries its id and position; every other record has neither |
| Scenarios.EmptyArraysRejected | test_lidar_analysis.py:13-20 | empty streams are an EmptyArray validation error |
| Scenarios.DifferentLengthsRejected | test_lidar_analysis.py:22-29 | streams of lengths 3 and 2 are a LengthMismatch validation error |
| Scenarios.AngleBeyondFullTurnRejected | test_lidar_analysis.py:31-38 | angles [0,90,360,450] are an AngleOutOfRange validation error |
| Scenarios.AngleJustPastFullTurnRejected | libs/lidarutils.py:184-186 | the boundary input 360.0001 is an AngleOutOfRange validation error |
| Scenarios.FullTurnAccepted | libs/lidarutils.py:184-186 | an angle of exactly 360 is accepted |
| Scenarios.NegativeDistanceOnlyLibraryRejects | test_lidar_analysis.py:49-56 | distances [1,2,-3,4] are a NegativeDistance error in the library copy and accepted by the lidar_analysis copy |
| Scenarios.MarkerAfterSweepIsKept | libs/lidarutils.py:213-228 | with nominal length 3, the stream [0,120,240,3]/[10,10,10,3] gives one sweep holding all four samples, with distances 0.01, 0.01, 0.01, 0.003 |
| Scenarios.SingleCrossingFindsNoSweep | libs/lidarutils.py:189-203 | the same stream has one zero crossing and no gaps; with the empty-histogram edge 0, no sample is a marker and no sweep is produced |
| Scenarios.TwoSweepCrossings | libs/lidarutils.py:189-190 | the two-sweep stream has zero crossings at indices 0 and 4, and the single gap 4 |
| Scenarios.MarkersAfterSweepsShiftLaterSweeps | libs/lidarutils.py:155-230 | with nominal length 4, the two-sweep stream gives two records: all of block 0 with its marker, then block 1 without its first sample, with its marker |
| Scenarios.JoinTwoSweeps | task1.py:61-64 | ids [0,1] with positions (1,2),(3,4) attach those positions to the two records; id 5 against two records is a lookup error |

## Left out

- The histogram mode (`numpy.histogram`, 10 float bins, the left edge of the fullest bin). It is the `estimate` parameter: a float computation over bin edges that the model does not reproduce.
- Reading the CSV files (`ReadFile`, `GetLidarMeasurementsFromFile`, `GetFlightPathFromFile`), including the string-to-float and string-to-uint8 conversions: file I/O. The model starts from the parsed sequences.
- The NaN, Inf and non-numeric tests: they depend on IEEE floats and numpy's type handling, which `real` does not model.
- Floating-point rounding: `real` arithmetic is exact. Comparing a distance with a window value is exact equality, and the mm→m factor is exactly 1/1000.
- The one-dimensionality checks: sequences are one-dimensional by construction.
- Visualisation and the polar-to-Cartesian projection (`VisualizeMeasurementsPerSweep`, `VisualizeAllSweepsWithDronePath`, `VisualizeRandomFlightPathAndSweep`, task2.py): trigonometry, plotting and interactive input. The grid-map module they call is not part of this model.
- Logging and the log calls inside extraction: presentation only.
- Argument parsing and the file-existence checks in the `main` functions: process set-up.
- The records the join updates in place before an id fails: the failure aborts the driver, so the model returns only the error.
- Numpy.Slice: the contract covers non-negative bounds only, including a start at or past the end. Negative bounds, which count from the end, are modelled in the body through `Numpy.ClampIndex`; they arise only from negative marker values in the copies that accept negative distances.
- Segmenter.Extract: the contract fixes the number and shape of the records. Their contents are stated by `Segmenter.RecordSlices`, `Segmenter.LastSweepClamped` and `Segmenter.SweepPastStreamEmpty` for non-negative bounds: within the stream, running past its end, starting at or past its end, and empty or reversed. On a stream whose blocks are each followed by their marker, `Layout.MarkersFollowingSweepsRoundTrip` and `Layout.LaidOutSweep` state them exactly.
