# Index and selection logic of the NSTX-U perturbation-network pipeline

This project models, in Dafny, the index and selection logic that runs before
and after the numerical PCA and network code of the pipeline.

`pertnet/data/preprocess_pertdata3.py` builds a piecewise PCA basis for each signal:

- `loadX` applies one boolean mask to X, shot and time.
- `fit_rampup_flat_rampdown_pca` splits the samples into three phases:
  - ramp-up: the samples before `t_rampup`;
  - ramp-down: per shot, the samples within `t_rampdown` of that shot's last time;
  - flat-top: the rest.
- It then fits one PCA per phase with `fit_pca`, which has its own component-count rule.
- It merges the three bases: the means are averaged, the matrix A is stacked, and a cumulative-energy rank with a cap is taken.
- `eval_pca` projects a dataset onto the merged basis, or passes the raw X through when there is no basis.

`pertnet/net/pertnet_utils.py` consumes the coefficient table:

- `train_val_test_split` cuts the sorted distinct shots into three consecutive slices, by truncated fractions. It selects rows with range tests on the shot number.
- `DataPreProcess.makeX` puts named blocks side by side.
- `DataPreProcess.transform` does the following, keeping X, Y, shot and time row-aligned throughout:
  - scales X and Y;
  - drops rows before `t_thresh` and rows with NaN;
  - optionally holds back shots or a suffix of rows;
  - optionally reorders the rows.
- `MLP.__init__` builds the Dropout / Linear / nonlinearity layer list.

Modules, one per file:

- **`Results`**: `Option` and `Result`.
- **`Indexing`**: the numpy and Python primitives:
  - `np.where`, `np.unique`, fancy indexing (`Gather`);
  - Python slices with negative bounds (`PySlice`);
  - `int()` truncation (`Trunc`) and `np.cumsum`.
- **`DataModel`**:
  - matrices whose rows carry a NaN flag;
  - PCA bases;
  - the coefficient table, with `shot`, `time` and one `coeff_` matrix per signal.
- **`PhaseSegmentation`**: the three phases.
- **`PcaFit`**: `loadX`, `fit_pca`, the merge, `eval_pca` (on a `Pca` class updated in place) and `fit_rampup_flat_rampdown_pca`.
- **`ShotSplit`**: `train_val_test_split`.
- **`DataPrep`**: the `DataPreProcess` class with `MakeX` and `Transform`, and the row-index specification of what `transform` returns.
- **`Mlp`**: the layer list.

Library calls and randomness are parameters of the model, each constrained only by what the code relies on:

- `PcaSolver` stands for sklearn `PCA(n_components=k, svd_solver='arpack').fit`. Its result is a mean per feature, plus k components and k ratios.
- `Decomposer` stands for sklearn `normalize` followed by `np.linalg.svd`. Its singular values are non-negative, with one right singular vector per value.
- `Permuter` stands for `torch.randperm`. It returns a permutation of 0..n-1.
- `Picker` stands for `np.random.choice(replace=False)`. It returns k distinct entries of the list.

`shot` and `time` are column vectors in the pipeline, since `load` reshapes every array to two dimensions. They are modelled as sequences with one entry per row.

## Model

| member | source | states |
|---|---|---|
| Indexing.Where | pertnet/data/preprocess_pertdata3.py:143 | np.where on a mask: ascending in-range indices, containing exactly the positions where the mask holds |
| Indexing.Unique | pertnet/net/pertnet_utils.py:20 | np.unique: strictly increasing, and holds exactly the values of the input |
| Indexing.PySlice | pertnet/net/pertnet_utils.py:26-28 | Python's s[lo:hi] is never longer than s; SliceBound pins where each bound lands |
| Indexing.PySliceCases | pertnet/net/pertnet_utils.py:26-28 | bounds inside s slice as written, a negative start counts from the end, and crossed bounds give an empty slice |
| Indexing.Trunc | pertnet/net/pertnet_utils.py:22-23 | int() on a real truncates toward zero: it is the floor for non-negative input and the ceiling for negative input |
| Indexing.CumSum | pertnet/data/preprocess_pertdata3.py:171 | np.cumsum: entry j is the sum of the first j+1 entries |
| Indexing.CumSumMonotone | pertnet/data/preprocess_pertdata3.py:171 | the cumulative sum of non-negative values never decreases and ends at the total |
| Indexing.GatherGather | pertnet/net/pertnet_utils.py:487-515 | indexing twice in a row equals indexing once by the composed index vector |
| DataModel.SelectTable | pertnet/net/pertnet_utils.py:43-49 | one index vector applied to shot, time and every coeff_: row k of each output is row idx[k] of the input; the keys, each signal's PCA record and each coeff_ width are kept as the deep copy keeps them |
| DataModel.HStack | pertnet/net/pertnet_utils.py:468 | np.hstack of two equally tall matrices: widths add, the height is kept, each row is the left row followed by the right row, and a row is NaN when either part is |
| PhaseSegmentation.RampUp | pertnet/data/preprocess_pertdata3.py:143 | ramp-up is ascending and holds exactly the samples with time < t_rampup, over all shots at once |
| PhaseSegmentation.ShotIndices | pertnet/data/preprocess_pertdata3.py:148 | np.where(shots == u): ascending, exactly the samples of shot u, and non-empty when u occurs |
| PhaseSegmentation.ShotEnd | pertnet/data/preprocess_pertdata3.py:148-150 | tend = max(time[ishot]) bounds the time of every row of the shot and is the time of one of them (per row in ShotEndIsLatest) |
| PhaseSegmentation.ShotEndIsLatest | pertnet/data/preprocess_pertdata3.py:149-150 | tend bounds every time of the shot and is the time of one of its samples |
| PhaseSegmentation.ShotTail | pertnet/data/preprocess_pertdata3.py:148-152 | a shot's ramp-down samples are exactly its samples with time > tend - t_rampdown |
| PhaseSegmentation.RampDownOverMembers | pertnet/data/preprocess_pertdata3.py:146-153 | the list built over shots us holds exactly the late samples of the shots in us, all in range |
| PhaseSegmentation.RampDown | pertnet/data/preprocess_pertdata3.py:146-153 | the loop over the ascending distinct shots extends idown by each shot's tail; the result holds exactly the samples later than their own shot's tend - t_rampdown |
| PhaseSegmentation.RampDownCoversEveryShot | pertnet/data/preprocess_pertdata3.py:146-153 | with t_rampdown > 0 every shot contributes its latest sample |
| PhaseSegmentation.FlatTop | pertnet/data/preprocess_pertdata3.py:156-158 | the sorted set difference of arange(N) and both ramps: ascending, and exactly the indices below N in neither ramp (FlatTopPartition adds the cover of 0..N-1) |
| PhaseSegmentation.FlatTopPartition | pertnet/data/preprocess_pertdata3.py:156-158 | flat-top is ascending and disjoint from ramp-up and ramp-down, and the three together are exactly 0..N-1 |
| PhaseSegmentation.PhasesOf | pertnet/data/preprocess_pertdata3.py:142-158 | the phases are RampUp, RampDownOver the unique shots and FlatTop of the two, all in range, with flat-top disjoint from both ramps and the three covering 0..N-1 |
| PhaseSegmentation.Segment | pertnet/data/preprocess_pertdata3.py:142-158 | the statements return exactly PhasesOf, with the partition property |
| PcaFit.LoadX | pertnet/data/preprocess_pertdata3.py:105-115 | one mask selects the same ascending rows of X, shot and time; a mask of the wrong length is an error |
| PcaFit.ExploratoryCount | pertnet/data/preprocess_pertdata3.py:190 | min(rows, cols, 100) - 1: below each of the three, and equal to one of them minus 1 |
| PcaFit.ChooseCount | pertnet/data/preprocess_pertdata3.py:194-199 | k is ncomps_max exactly when no count below ncomps_max has cumulative ratio above evt; otherwise k is the smallest 1-based count whose cumulative ratio exceeds evt; 1 <= k <= ncomps_max |
| PcaFit.FitPca | pertnet/data/preprocess_pertdata3.py:188-208 | succeeds exactly when X has no NaN and both the exploratory and the chosen count are in the range arpack accepts; then the refit with the chosen count, carrying the exploratory ratios |
| PcaFit.MeanOfThree | pertnet/data/preprocess_pertdata3.py:166-167 | mu = (mean_1 + mean_2 + mean_3) / 3: the three rows mu - mean_i of A sum to zero, and three equal means merge to that mean |
| PcaFit.Stack | pertnet/data/preprocess_pertdata3.py:167 | A has k1+k2+k3+3 rows, all of the features' width: the components of phases 1, 2 and 3 in that order, then the three mean offsets |
| PcaFit.Energetic | pertnet/data/preprocess_pertdata3.py:171-172 | the mask energies > 0.999 marks the positions whose cumulative share of the singular values passes 0.999 (its shape is proved in EnergeticMonotone) |
| PcaFit.EnergeticMonotone | pertnet/data/preprocess_pertdata3.py:171-172 | for non-negative singular values the mask energies > 0.999 only rises along the curve, equals cumsum > 0.999 * sum when the sum is positive, and is true at the last position then |
| PcaFit.MergedRank | pertnet/data/preprocess_pertdata3.py:171-173 | the first 1-based position whose energy passes 0.999, capped at ncomps_max: below the cap it is that first position, at the cap no earlier position passes; an error when none passes |
| PcaFit.MergedRankExists | pertnet/data/preprocess_pertdata3.py:171-173 | for non-negative singular values with a positive sum the rank exists and 1 <= n <= min(ncomps_max, \|s\|) |
| PcaFit.Merge | pertnet/data/preprocess_pertdata3.py:165-174 | mean is the average of the three; n_components is MergedRank of the singular values of the stacked A, and the merge fails exactly when that does; exactly n_components leading right singular vectors are kept; it succeeds whenever the singular values have a positive sum |
| PcaFit.Project | pertnet/data/preprocess_pertdata3.py:129 | pca.transform gives one row per sample and one column per component |
| PcaFit.EvalPca | pertnet/data/preprocess_pertdata3.py:123-133 | with no PCA the coefficients are X itself; otherwise it fails exactly on NaN, on an X with no rows or no columns (sklearn's check_array) or on a width mismatch, and else the projection is stored on the object and returned with a copy of the fitted basis, and nothing else changes |
| PcaFit.FitPhases | pertnet/data/preprocess_pertdata3.py:160-174 | the phase fits are FitPca on X's rows at ramp-up, flat-top and ramp-down, and the merged basis is Merge of the three; it fails exactly when one of these does |
| PcaFit.FitRampupFlatRampdown | pertnet/data/preprocess_pertdata3.py:136-186 | None exactly when X has at most 2 columns; otherwise the merged PCA of the segmented phases, or the error a fit raises |
| PcaFit.NewMergedPca | pertnet/data/preprocess_pertdata3.py:178-183 | a fresh PCA carrying the merged n_components, mean_, components_ and the three phase fits |
| PcaFit.Pca.constructor | pertnet/data/preprocess_pertdata3.py:178 | PCA(n_components=n) with no attribute set yet |
| ShotSplit.ShotCounts | pertnet/net/pertnet_utils.py:22-24 | ntrain + nval + ntest is the number of distinct shots (CountsNonNegative states the int() floors) |
| ShotSplit.CountsNonNegative | pertnet/net/pertnet_utils.py:22-24 | for any non-negative fractions ntrain and nval are the floors of their shares of the shots; when the fractions sum to at most 1, ntest is non-negative too |
| ShotSplit.ShotSlices | pertnet/net/pertnet_utils.py:26-28 | trainshots has ntrain shots when ntrain fits, and valshots and testshots have nval and the rest when both fit (SlicesConcatenate and SlicesContiguous give their contents) |
| ShotSplit.SlicesConcatenate | pertnet/net/pertnet_utils.py:26-28 | the three shot lists concatenate to the sorted distinct shots |
| ShotSplit.SlicesContiguous | pertnet/net/pertnet_utils.py:26-28 | each shot list is a run of consecutive entries of the sorted shots |
| ShotSplit.InRange | pertnet/net/pertnet_utils.py:30-32 | the range test selects exactly the rows with lo <= shot <= hi, ascending |
| ShotSplit.SplitIndices | pertnet/net/pertnet_utils.py:18-32 | IndexError exactly when a shot list is empty; otherwise three ascending in-range index vectors |
| ShotSplit.RangeTestIsMembership | pertnet/net/pertnet_utils.py:30-32 | the range tests select exactly the rows whose shot is in the list |
| ShotSplit.EveryRowInExactlyOne | pertnet/net/pertnet_utils.py:30-32 | for any fractions, when no list is empty every row lands in exactly one of itrain, ival and itest |
| ShotSplit.SlicesAtCuts | pertnet/net/pertnet_utils.py:26-28 | three non-empty slices, whatever the signs of the counts, are the sorted shots cut at two points |
| ShotSplit.InExactlyOneRun | pertnet/net/pertnet_utils.py:30-32 | a value of the strictly increasing shot list lies in exactly one of the three runs |
| ShotSplit.SelectKeyStep | pertnet/net/pertnet_utils.py:40-49 | one pass of the loop over keys replaces that key's entry in the copy and nothing else |
| ShotSplit.AllSelected | pertnet/net/pertnet_utils.py:34-49 | once every key is done, the deep copy is the input selected by the index vector |
| ShotSplit.SelectAll | pertnet/net/pertnet_utils.py:34-49 | the loop over the keys leaves each copy equal to the input with shot, time and every coeff_ selected by its index vector |
| ShotSplit.TrainValTestSplit | pertnet/net/pertnet_utils.py:15-51 | each returned table is the input with shot, time and every coeff_ selected by that split's index vector; fails exactly when a list is empty |
| DataPrep.Lookup | pertnet/net/pertnet_utils.py:460-463 | datadict[key].coeff_ for a signal; for shot and time the raw values as one column, row i holding the i-th value; KeyError otherwise |
| DataPrep.Stacked | pertnet/net/pertnet_utils.py:456-470 | makeX keeps the table's row count and yields a well-shaped matrix |
| DataPrep.StackedParts | pertnet/net/pertnet_utils.py:456-470 | on success every name is found with the same row count, and the width is the sum of the block widths |
| DataPrep.StackedColumns | pertnet/net/pertnet_utils.py:465-468 | block j occupies columns Offset(j) to Offset(j+1) of every row, in name order |
| DataPrep.StackedColumn | pertnet/net/pertnet_utils.py:465-468 | the same for one row and one block |
| DataPrep.StackedNaN | pertnet/net/pertnet_utils.py:465-468 | a stacked row holds a NaN exactly when one of its blocks does in that row |
| DataPrep.StackedSucceeds | pertnet/net/pertnet_utils.py:456-470 | on an aligned table makeX fails exactly when there are no names or one is missing |
| DataPrep.Scale | pertnet/net/pertnet_utils.py:477-478 | StandardScaler.transform is inverted by x * scale + mean; NaN rows stay NaN; an array with no rows or no columns, or a feature count mismatch, is an error |
| DataPrep.Take | pertnet/net/pertnet_utils.py:487-490 | one index vector applied to X, Y, shot and time keeps them aligned row by row |
| DataPrep.TakeTake | pertnet/net/pertnet_utils.py:487-515 | two selections of the batch are one selection by the composed index |
| DataPrep.TakeSlice | pertnet/net/pertnet_utils.py:535-538 | [:k] on the four arrays is selection by the sliced index |
| DataPrep.TakeAll | pertnet/net/pertnet_utils.py:480-481 | selecting every row in order leaves the batch unchanged |
| DataPrep.PastThreshold | pertnet/net/pertnet_utils.py:486 | exactly the rows with time > t_thresh, ascending |
| DataPrep.NoNaN | pertnet/net/pertnet_utils.py:493 | exactly the rows with no NaN in X and none in Y, ascending |
| DataPrep.ThresholdStep | pertnet/net/pertnet_utils.py:484-490 | every row when no threshold is set, else the rows past it |
| DataPrep.Survivors | pertnet/net/pertnet_utils.py:484-497 | the indices both filters keep, all in range (exactly the clean rows, ascending, by SurvivorsAreClean) |
| DataPrep.SurvivorsAreClean | pertnet/net/pertnet_utils.py:484-497 | the rows both filters keep are, ascending, exactly the clean rows |
| DataPrep.HoldBackCount | pertnet/net/pertnet_utils.py:502 | sz = int((1 - h) * n) (its bounds in HoldBackCountBounds) |
| DataPrep.HoldBackCountBounds | pertnet/net/pertnet_utils.py:501 | int((1-h)n) is at most n for h >= 0, non-negative for h <= 1, at least n for h <= 0, and negative only when h > 1 |
| DataPrep.ByShotIndex | pertnet/net/pertnet_utils.py:504-510 | the hstack of the rows of each selected shot, in selection order, all in range (ByShotMembers: exactly the rows of the selected shots) |
| DataPrep.ByShotMembers | pertnet/net/pertnet_utils.py:504-510 | the by-shot index holds exactly the rows of the selected shots, each once when the selection has no repeats |
| DataPrep.ByShotIndexAsWritten | pertnet/net/pertnet_utils.py:504-510 | the loop as written: idx is unbound exactly when no shot is selected, and otherwise the rows of the selected shots in selection order |
| DataPrep.ByShotStep | pertnet/net/pertnet_utils.py:499-515 | fails exactly when sz < 0; otherwise keeps exactly the surviving rows whose shot was drawn, each once |
| DataPrep.Shuffled | pertnet/net/pertnet_utils.py:522-528 | the same rows in another order (same length, same members, still distinct); unchanged when not randomizing |
| DataPrep.TransformIndex | pertnet/net/pertnet_utils.py:484-538 | the rows transform returns, as in-range indices of the prepared batch |
| DataPrep.TransformIndexSound | pertnet/net/pertnet_utils.py:484-538 | no row is returned twice and every returned row passed both filters |
| DataPrep.HeldSound | pertnet/net/pertnet_utils.py:499-515 | the by-shot step keeps distinct surviving rows |
| DataPrep.PrefixSound | pertnet/net/pertnet_utils.py:531-538 | a leading slice of distinct rows is distinct and drawn from them |
| DataPrep.TransformedRowsClean | pertnet/net/pertnet_utils.py:484-497 | every returned row has time > t_thresh when set, and no NaN in X or Y |
| DataPrep.NoHoldBackKeepsSurvivors | pertnet/net/pertnet_utils.py:499-538 | with a hold-back fraction <= 0 every surviving row is returned once, in order unless randomized |
| DataPrep.PrefixHoldBack | pertnet/net/pertnet_utils.py:531-538 | the prefix hold-back keeps int((1-h)n) of the n survivors, the first ones when not randomized |
| DataPrep.ByShotHoldBack | pertnet/net/pertnet_utils.py:499-515 | the by-shot hold-back keeps exactly the surviving rows of the drawn shots; it fails only for a negative count, which needs h > 1 |
| DataPrep.NoShotDrawn | pertnet/net/pertnet_utils.py:501-510 | with one shot and h = 0.5 the draw has size 0 and selects nothing |
| DataPrep.ByShotEmptyDraw | pertnet/net/pertnet_utils.py:499-515 | when no shot is drawn the corrected hold-back returns no row instead of failing |
| DataPrep.DataPreProcess.constructor | pertnet/net/pertnet_utils.py:437-454 | stores the names, threshold and fitted scalers |
| DataPrep.DataPreProcess.MakeX | pertnet/net/pertnet_utils.py:456-470 | the hstack loop computes makeX, including its errors |
| DataPrep.DataPreProcess.Prepared | pertnet/net/pertnet_utils.py:474-481 | fails exactly when makeX fails, a block stack has no rows or no columns, or a scaler has the wrong width; otherwise X and Y are the scaled makeX results and shot, time are the table's, all aligned |
| DataPrep.DataPreProcess.Prepare | pertnet/net/pertnet_utils.py:474-481 | the statements compute Prepared |
| DataPrep.DataPreProcess.DropRows | pertnet/net/pertnet_utils.py:484-497 | the threshold and NaN filters leave the prepared batch at the surviving rows |
| DataPrep.HoldBackShots | pertnet/net/pertnet_utils.py:499-515 | the by-shot hold-back on the current arrays selects the rows ByShotStep names, or fails as it does |
| DataPrep.Randomize | pertnet/net/pertnet_utils.py:522-528 | one permutation reorders all four arrays |
| DataPrep.KeepPrefix | pertnet/net/pertnet_utils.py:531-538 | the first int((1-h)n) rows of all four arrays |
| DataPrep.DataPreProcess.Transform | pertnet/net/pertnet_utils.py:472-540 | the returned batch is the prepared batch at the rows TransformIndex names; it fails exactly when preparation or the by-shot draw fails |
| Mlp.Upper | pertnet/net/pertnet_utils.py:309 | str.upper on ASCII: no lower-case letter remains, lower-case letters become their capitals, every other character is kept |
| Mlp.UpperIdempotent | pertnet/net/pertnet_utils.py:309 | upper-casing twice is upper-casing once |
| Mlp.ParseActivation | pertnet/net/pertnet_utils.py:309-316 | each of RELU, TANH, LEAKYRELU and ELU, in any case, selects its own nonlinearity and only that name does; any other name is left as the string |
| Mlp.Dims | pertnet/net/pertnet_utils.py:318-320 | [in_dim] + hidden_dims + [out_dim] |
| Mlp.BlocksGrow | pertnet/net/pertnet_utils.py:325-332 | one pass of the loop appends the next Dropout, Linear, nonlinearity triple |
| Mlp.BlocksPopped | pertnet/net/pertnet_utils.py:334 | after the pop the list ends with the last Linear |
| Mlp.BuildLayers | pertnet/net/pertnet_utils.py:322-335 | 3(h+1)-1 layers, namely Dropout(p_in), then Dropout(p_hidden) before each later Linear, Linear(dims[i], dims[i+1]), and the nonlinearity between Linears, ending with the last Linear; it fails exactly on a dropout outside [0, 1] or an unknown nonlinearity that survives the pop |

## Left out

- Numerics:
  - Floating point and float32 tensors: values are Dafny reals.
  - NaN is a per-row flag, set when any entry of the row is NaN.
  - `torch.Tensor` conversion is not modelled.
- Library internals:
  - The internals of PCA fitting, `normalize` and the SVD are parameters (`PcaSolver`, `Decomposer`), constrained only by their shapes.
- `StandardScaler.fit` in `DataPreProcess.__init__`: the fitted mean and scale are inputs to the constructor. The `makeX` calls inside `__init__` are not modelled either, so the constructor accepts any names. In the source, a name missing from the datadict raises KeyError there, and an empty name list leaves `Xdata` unbound.
- `self.Y_pca = datadict[ynames[0]]` is not modelled, because nothing in the core reads it.
- Randomness: `torch.randperm` and `np.random.choice` are parameters. Any permutation and any draw without replacement are allowed.
- I/O and orchestration:
  - `load` with `mat73`, `save_data`, `main` and the environment-variable paths.
  - The `median_filter` smoothing: `smoothit` and `smooth_coeffs` are taken as false.
- Outside the core:
  - `GrowthRate`.
  - The training loop, the losses and `MLP.forward`.
  - The plotting and movie code.
  - The commented-out legacy pre-processor.
- Copies and identity:
  - `copy.deepcopy` in `eval_pca` and `fit_rampup_flat_rampdown_pca` is modelled by returning values (`FittedPca`), which cannot alias.
  - The `EasyDict` wrapper of the pass-through case is a `Signal` with no basis.
- `Mlp.Upper`: only ASCII letters are upper-cased, not Unicode case mapping.
- `Mlp.BuildLayers`: torch's own dimension checks on `nn.Linear` are not modelled. Dimensions are natural numbers.
- `ShotSplit.TrainValTestSplit`: the `ftest` argument is accepted and unused, as in the source.
- ShotSplit.CountsNonNegative: for a negative fraction, int() of its share is a ceiling. ShotCounts computes it with Trunc, but no lemma states it, since the split is meant for fractions in [0, 1].
- Errors for input the pipeline never builds:
  - This covers misaligned tables: shot, time and the `coeff_` rows of different lengths.
  - The split and the transform require an aligned table (`Aligned`).
  - `makeX` by itself only requires well-shaped blocks, and it reports a row-count mismatch as an error.
- PcaFit.Project: the contract states shapes only; the dot products are floating point in the source.
- PcaFit.FitPca: the exploratory ratios are those the solver returns. Nothing is assumed about their sum.
- The `print` calls are not modelled.

## Findings

| source | as written | input that shows it | evidently intended | confidence | as-written member | corrected member |
|---|---|---|---|---|---|---|
| pertnet/net/pertnet_utils.py:501-512 | `idx` is first bound inside the loop over `select_shots`, so when `sz = int((1 - holdback_fraction) * len(uniqshots))` is 0 the loop never runs and `X[idx,:]` raises UnboundLocalError | by-shot hold-back with one surviving shot and `holdback_fraction = 0.5`: sz = int(0.5) = 0 | a draw of no shots keeps no rows | not executed | DataPrep.ByShotIndexAsWritten | DataPrep.ByShotEmptyDraw |

The as-written member fails exactly when the draw is empty. `DataPrep.NoShotDrawn` shows the draw is empty in the example above. The rest of the model uses the corrected `DataPrep.ByShotIndex`, which starts from an empty index. `DataPrep.ByShotEmptyDraw` proves that the corrected transform returns an empty batch there.
