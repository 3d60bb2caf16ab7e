# Swath gridding and time-interval file selection

This project models two parts of MELODIES-MONET's satellite utilities.

**Swath gridding** (`melodies_monet/util/grid_util_swath.py`). It bins
satellite-swath observations onto a regular (time × x × y) grid. A batch has
one scan time per row and an x coordinate, a y coordinate and a value per
pixel.

- Each axis index is `floor((v - edges[0]) / (edges[1] - edges[0]))`, clipped
  to `[0, n-1]`.
- The sparse accumulator keeps two dictionaries keyed by
  `(i_time, i_x, i_y)`: a count and a running sum.
- The sparse normalizer turns the sums into means in place.
- The materializer writes the dictionaries into a count array filled with 0
  and a data array filled with NaN.
- The dense accumulator and the dense normalizer do the same work on
  pre-allocated 3-D arrays.
- Rows whose values are all missing are skipped, and so is every missing
  pixel.

**Time-interval subset** (`melodies_monet/util/time_interval_subset.py`). This
part selects files for a list of formatted time keys.

- `subset_model_filelist` keeps, for each key, the one file whose name
  contains the key. It adds nothing when no file or more than one file
  matches.
- `subset_OMPS_l2` keeps every file whose name contains
  `OMPS-NPP_NMTO3-L2_v2.1_` followed by the key, key by key.

Each module holds one part:

- `GridGeometry` holds the bin index.
- `Swath` defines the batch and `Samples`. `Samples` is the ordered list of
  valid samples that both accumulators visit. It is the specification their
  loops are proved against.
- `SparseAccumulator` holds the pure dictionary model `Acc`, `AddAll` and
  `Normalized`, plus the class `SparseGrid`. Its two map fields are updated in
  place.
- `DenseAccumulator` holds the methods that work on `array3`.
- `PathAgreement` relates the two paths.
- `GridScenarios` holds worked examples.
- `TimeIntervalSubset` holds the file filters.

Missing values (NaN) are `None`. Coordinates and values are `real`.

## Model

| member | source | states |
|---|---|---|
| GridGeometry.Clip | melodies_monet/util/grid_util_swath.py:52-54 | The clipped index lies in `[lo, hi]`. |
| GridGeometry.BinIndex | melodies_monet/util/grid_util_swath.py:50-54 | floor-then-clip always gives an index in `[0, n-1]`, whatever the coordinate. |
| GridGeometry.BinIndexExact | melodies_monet/util/grid_util_swath.py:39-42 | A coordinate in `[origin + k*width, origin + (k+1)*width)` with `0 <= k < n` gets index exactly `k`. |
| GridGeometry.BinIndexBelow | melodies_monet/util/grid_util_swath.py:50-54 | A coordinate below the origin is clipped to bin 0. |
| GridGeometry.BinIndexAbove | melodies_monet/util/grid_util_swath.py:50-54 | A coordinate at or beyond `origin + n*width` is clipped to bin `n-1`. |
| GridGeometry.AxisIndex | melodies_monet/util/grid_util_swath.py:39-54 | The axis index, with the width taken from the first two edges, lies in `[0, len(edges)-2]`. |
| GridGeometry.AxisIndexUniform | melodies_monet/util/grid_util_swath.py:39-54 | On uniform edges, a coordinate in `[edges[k], edges[k+1])` lands in bin `k`. |
| GridGeometry.AxisIndexClamps | melodies_monet/util/grid_util_swath.py:52-54 | On uniform edges, a coordinate below the first edge goes to bin 0. One at or above the last edge goes to the last bin. |
| Swath.CellOf | melodies_monet/util/grid_util_swath.py:46-54 | The cell of every pixel satisfies `0 <= i_time < ntime`, `0 <= i_x < nx` and `0 <= i_y < ny`. |
| Swath.AllMissing | melodies_monet/util/grid_util_swath.py:45 | Definition of the row test that `.isnull().all()` performs: every value of the row is missing. It is related to the column loop by Swath.AllMissingRowAddsNothing. |
| Swath.RowContribution | melodies_monet/util/grid_util_swath.py:45-49 | Definition of one row's samples: none for an all-missing row, otherwise the non-missing pixels in column order. Swath.RowContributionIsRowSamples shows that the skip changes nothing. |
| Swath.Samples | melodies_monet/util/grid_util_swath.py:43-49 | Definition of the batch's valid samples in the order the two loops visit them. Swath.SamplesSound, Swath.SamplesComplete and Swath.SamplesCount characterise it. |
| Swath.RowSamplesSound | melodies_monet/util/grid_util_swath.py:47-49 | Every sample the column loop produces comes from a non-missing pixel of that row and carries that pixel's cell. |
| Swath.RowSamplesComplete | melodies_monet/util/grid_util_swath.py:47-49 | Every non-missing pixel of the row is among the samples the column loop produces. |
| Swath.AllMissingRowAddsNothing | melodies_monet/util/grid_util_swath.py:45 | A row whose values are all missing would give no sample through the column loop either. |
| Swath.RowContributionIsRowSamples | melodies_monet/util/grid_util_swath.py:45-49 | Skipping an all-missing row changes nothing: a row contributes exactly its column-by-column samples. |
| Swath.SamplesSound | melodies_monet/util/grid_util_swath.py:43-54 | Every sample of the batch comes from a non-missing pixel. It carries that pixel's value and cell, and the cell is inside the grid. |
| Swath.SamplesComplete | melodies_monet/util/grid_util_swath.py:43-49 | Every non-missing pixel of the batch yields a sample with its value and its cell. |
| Swath.RowSamplesCount | melodies_monet/util/grid_util_swath.py:47-49 | A row gives one sample per non-missing value among its first m pixels. The sample values add up to those values. |
| Swath.SamplesCount | melodies_monet/util/grid_util_swath.py:43-49 | The batch gives exactly as many samples as `data_obs` has non-missing entries. Their values add up to the sum of those entries. |
| Swath.AllMissingBatchNoSamples | melodies_monet/util/grid_util_swath.py:45 | A batch whose rows are all missing yields no sample. |
| SparseAccumulator.AddSample | melodies_monet/util/grid_util_swath.py:55-60 | One sample keeps the two dictionaries on one key set, and that key set gains exactly the sample's cell. |
| SparseAccumulator.AddAll | melodies_monet/util/grid_util_swath.py:55-60 | Adding samples one after the other keeps one key set for the count and sum dictionaries. |
| SparseAccumulator.AddAllAppend | melodies_monet/util/grid_util_swath.py:43-60 | Accumulating two runs of samples in turn equals accumulating their concatenation. Two calls on consecutive batches therefore compose. |
| SparseAccumulator.AddAllCells | melodies_monet/util/grid_util_swath.py:55-60 | Per cell, the count grows by the number of samples binned there and the sum by their values. A key is present exactly when it was before or some sample hit it. |
| SparseAccumulator.AddAllConsistent | melodies_monet/util/grid_util_swath.py:55-60 | Accumulation keeps one key set and positive counts for every present key. |
| SparseAccumulator.AddAllInGrid | melodies_monet/util/grid_util_swath.py:52-60 | Samples whose cells lie in the grid keep every key in the grid. |
| SparseAccumulator.AddAllTotalCount | melodies_monet/util/grid_util_swath.py:55-60 | The counts over all cells grow by exactly the number of samples. |
| SparseAccumulator.AddAllTotalSum | melodies_monet/util/grid_util_swath.py:55-60 | The sums over all cells grow by the sum of the sample values. |
| SparseAccumulator.BatchTotals | melodies_monet/util/grid_util_swath.py:43-60 | One batch raises the total count by the number of non-missing entries of `data_obs`, and the total sum by their sum. |
| SparseAccumulator.AllMissingBatchUnchanged | melodies_monet/util/grid_util_swath.py:45-49 | A batch whose values are all missing leaves both dictionaries unchanged. |
| SparseAccumulator.Normalized | melodies_monet/util/grid_util_swath.py:74-75 | Normalization keeps the counts and the key set of the sums. |
| SparseAccumulator.NormalizedMeans | melodies_monet/util/grid_util_swath.py:55-75 | After accumulating from empty dictionaries and normalizing, exactly the cells some sample hit are keys. Each holds its hit count and the mean of its samples' values. |
| SparseAccumulator.NormalizeTwiceDiffers | melodies_monet/util/grid_util_swath.py:74-75 | A second normalization changes the grid whenever a cell has count > 1 and a non-zero mean. In-place normalization is not idempotent. |
| SparseAccumulator.Materialized | melodies_monet/util/grid_util_swath.py:99-102 | A materialized data cell holds a value exactly when its key is in the data dictionary, and is missing (NaN) otherwise. |
| SparseAccumulator.SparseGrid.Update | melodies_monet/util/grid_util_swath.py:16-60 | The new dictionaries are the old ones with every valid sample of the batch added in traversal order. One key set, positive counts and keys inside the grid are each preserved. The total count grows by the number of non-missing entries. |
| SparseAccumulator.SparseGrid.UpdateRow | melodies_monet/util/grid_util_swath.py:46-60 | The column loop adds the row's valid samples in column order. |
| SparseAccumulator.SparseGrid.AddToCell | melodies_monet/util/grid_util_swath.py:55-60 | An existing key gets +1 and +value. A new key starts at count 1 with the value as its sum. |
| SparseAccumulator.SparseGrid.Normalize | melodies_monet/util/grid_util_swath.py:63-75 | Each sum becomes the old sum divided by its count, which is positive, so there is no division by zero. The counts and the key set are kept. |
| SparseAccumulator.SparseGrid.ToArrays | melodies_monet/util/grid_util_swath.py:78-104 | Returns fresh arrays of shape `(len(time_edges)-1, len(x_edges)-1, len(y_edges)-1)`. A cell whose key is present holds that key's count and value. Every other cell holds count 0 and missing data, so count 0 holds exactly where data is missing. |
| SparseAccumulator.SparseGrid.WriteKeys | melodies_monet/util/grid_util_swath.py:100-102 | Writing every key into zero-filled and NaN-filled arrays leaves each cell holding its count and value, or 0 and missing. |
| DenseAccumulator.Plus | melodies_monet/util/grid_util_swath.py:148 | Adding a value to a data cell leaves it present exactly when it was present, so a NaN cell stays NaN. |
| DenseAccumulator.NormalizedCell | melodies_monet/util/grid_util_swath.py:163-164 | A normalized cell holds a value exactly when its count is positive and its sum is present. |
| DenseAccumulator.UpdateDense | melodies_monet/util/grid_util_swath.py:107-148 | Every cell's count grows by the number of valid samples binned there, and its data by their values (a NaN cell stays NaN). A cell no sample hits keeps its count and data. |
| DenseAccumulator.AddRowDense | melodies_monet/util/grid_util_swath.py:134-136 | A row whose values are all missing is skipped. Any other row adds its valid samples. |
| DenseAccumulator.UpdateDenseRow | melodies_monet/util/grid_util_swath.py:137-148 | The column loop adds the row's valid samples, one per non-missing pixel. |
| DenseAccumulator.AddPixelDense | melodies_monet/util/grid_util_swath.py:140-148 | For a non-missing pixel: the time bin is clipped into range, the pixel is binned and its cell gets +1 and +value. |
| DenseAccumulator.AddToCellDense | melodies_monet/util/grid_util_swath.py:147-148 | One sample adds 1 to its cell's count and its value to that cell's data, and changes no other cell. |
| DenseAccumulator.NormalizeDense | melodies_monet/util/grid_util_swath.py:152-164 | A cell with count 0 becomes missing. A cell with a positive count holds its old data divided by the count. The counts are untouched. |
| DenseAccumulator.NormalizedCellTwiceDiffers | melodies_monet/util/grid_util_swath.py:163-164 | Normalizing a cell with count above 1 and a non-zero sum a second time changes its value, so the dense normalizer is not idempotent either. |
| DenseAccumulator.NormalizeSlab | melodies_monet/util/grid_util_swath.py:163-164 | Normalizes every cell of one time slab and leaves all other cells alone. |
| PathAgreement.SparseDenseAgree | melodies_monet/util/grid_util_swath.py:16-164 | The two paths leave the same count and value in every cell. One is accumulate from empty, normalize and materialize. The other is the dense path from zero counts and zero sums. |
| PathAgreement.GridBothWays | melodies_monet/util/grid_util_swath.py:16-164 | Running the methods themselves has the same result. New dictionaries go through update, normalize and materialize. Zero-filled dense arrays go through update and normalize. The resulting count and data arrays agree in every cell. |
| PathAgreement.UpdateTwice | melodies_monet/util/grid_util_swath.py:16-60 | Two consecutive updates of one pair of dictionaries equal accumulating both batches' samples in order. The result has one key set, positive counts and keys inside the grid. |
| GridScenarios.TwoPixelsSamples | melodies_monet/util/grid_util_swath.py:43-54 | On a 2×2×2 grid, two pixels at (5, 2) and (15, 8) in a row at time 0.5 are binned into cells (0,0,0) and (0,1,1), in that order. |
| GridScenarios.TwoPixelsDense | melodies_monet/util/grid_util_swath.py:134-148 | For that batch, each of those two cells is hit once, with sums 10 and 20, and every other cell is never hit. |
| GridScenarios.TwoPixelsSparse | melodies_monet/util/grid_util_swath.py:55-104 | For that batch, exactly those two keys have count 1 and hold means 10 and 20. Every other cell materializes as missing. |
| GridScenarios.SameCellMean | melodies_monet/util/grid_util_swath.py:55-75 | Values 4 and 6 in one cell give count 2 and mean 5 on both paths. |
| TimeIntervalSubset.Occurs | melodies_monet/util/time_interval_subset.py:8 | Definition of Python's substring test `key in fs` by recursion on the name. TimeIntervalSubset.OccursAt gives its positional reading. |
| TimeIntervalSubset.OccursAt | melodies_monet/util/time_interval_subset.py:8 | The substring test used for `key in fs` holds exactly when the key is a prefix of some suffix of the name. |
| TimeIntervalSubset.Matching | melodies_monet/util/time_interval_subset.py:8 | The filter returns no more files than listed. Each one is listed and contains the key. |
| TimeIntervalSubset.MatchingLength | melodies_monet/util/time_interval_subset.py:8 | The filter's length is the number of listed files containing the key. |
| TimeIntervalSubset.MatchingMultiplicity | melodies_monet/util/time_interval_subset.py:21 | A file containing the key is kept as often as it is listed. Any other file is dropped. |
| TimeIntervalSubset.MatchingAppend | melodies_monet/util/time_interval_subset.py:21 | Filtering a concatenation gives the concatenation of the filtered parts, so listing order is kept. |
| TimeIntervalSubset.UniqueMatch | melodies_monet/util/time_interval_subset.py:8-12 | A key contributes at most one file. It contributes one exactly when one listed file matches, and that file is listed and contains the key. |
| TimeIntervalSubset.ModelFiles | melodies_monet/util/time_interval_subset.py:7-12 | Definition of `subset_model_filelist`'s output: per key in order, the key's unique match. TimeIntervalSubset.ModelFilesSound, TimeIntervalSubset.ModelFilesComplete and TimeIntervalSubset.ModelFilesLength characterise it. |
| TimeIntervalSubset.SubsetModelFilelist | melodies_monet/util/time_interval_subset.py:1-13 | The loop over the keys returns the key-by-key selection `ModelFiles`. |
| TimeIntervalSubset.ModelFilesLength | melodies_monet/util/time_interval_subset.py:6-13 | The output has at most one file per key. |
| TimeIntervalSubset.ModelFilesSound | melodies_monet/util/time_interval_subset.py:8-10 | Every output file is listed and is the only listed file containing one of the keys. |
| TimeIntervalSubset.ModelFilesComplete | melodies_monet/util/time_interval_subset.py:8-10 | A key matched by exactly one listed file contributes that file to the output. |
| TimeIntervalSubset.ModelFilesAppend | melodies_monet/util/time_interval_subset.py:7-10 | Selecting for two runs of keys in turn equals selecting for their concatenation, so the output follows key order. |
| TimeIntervalSubset.OmpsFiles | melodies_monet/util/time_interval_subset.py:20-23 | Definition of `subset_OMPS_l2`'s output: per key in order, all files containing the prefixed key. TimeIntervalSubset.OmpsFilesSound, TimeIntervalSubset.OmpsFilesComplete and TimeIntervalSubset.OmpsFilesLength characterise it. |
| TimeIntervalSubset.SubsetOmpsL2 | melodies_monet/util/time_interval_subset.py:15-24 | The nested loops return, key by key, every listed file containing the OMPS prefix and the key, in listing order. |
| TimeIntervalSubset.OmpsFilesAppend | melodies_monet/util/time_interval_subset.py:20-23 | Selecting for two runs of keys in turn equals selecting for their concatenation. |
| TimeIntervalSubset.OmpsFilesLength | melodies_monet/util/time_interval_subset.py:21-23 | The output length is the sum over keys of the number of matching files. Nothing is deduplicated. |
| TimeIntervalSubset.OmpsFilesSound | melodies_monet/util/time_interval_subset.py:21-23 | Every output file is listed and contains the prefix followed by one of the keys. |
| TimeIntervalSubset.OmpsFilesComplete | melodies_monet/util/time_interval_subset.py:21-23 | Every listed file containing the prefix followed by some key is in the output. |

## Left out

- Floating point: values and coordinates are `real`. Rounding, summation order and `float32` storage are not modelled.
- NaN is modelled as `None` in stored data, and a NaN data cell stays NaN when a value is added. NaN coordinates or times are not modelled.
- The `count_type`/`data_type` dtype parameters of `sparse_data_to_array` are not modelled. They only choose the storage width. Counts are unbounded `nat`, so `uint32` wrap-around is not modelled.
- xarray calls (`.isnull().all()`, `.values`) become "every value of the row is missing" and a plain value.
- Geometry and shape errors are preconditions, because the code raises none. The preconditions are at least two edges per axis, a positive first width, and obs arrays of one (rows, cols) shape.
- DenseAccumulator.UpdateDense: the source takes `(ntime, nx, ny)` from `data_grid.shape`. The model requires both arrays to have the shape derived from the edges.
- SparseAccumulator.SparseGrid.ToArrays: requires every key to be a cell of the grid; keys that `Update` produces with the same edges always are. The source writes whatever keys the dictionaries hold. A key at or beyond an axis length would raise an IndexError, and a negative key would be written at the far end of the axis by numpy's negative indexing. Neither out-of-grid case is modelled.
- Non-uniform edges: the bin width always comes from the first two edges only, exactly as in the code. The exact-bin property is proved only for uniform edges.
- SparseAccumulator.SparseGrid.Normalize and SparseAccumulator.SparseGrid.WriteKeys visit the dictionary keys in an unspecified order. Python's insertion order is not modelled, and the results do not depend on it.
- DenseAccumulator.UpdateDense: the total count and total sum over all cells of the arrays are neither stated nor proved. The model has no sum over an `array3`; only the per-cell growth is stated. For the sparse path the totals are stated as SparseAccumulator.BatchTotals.
- Time-interval subset: `pd.date_range` and `strftime` are left out. The formatted key strings are the input, including the `'%Ym%m%d'` format of the OMPS keys.
- The `print` warning for a key with more than one matching file is output only, and is left out.
- `melodies_monet/driver_workingvers_13023.py` is not part of this model. It covers configuration, file I/O, pairing, plotting and statistics through libraries not shown.
