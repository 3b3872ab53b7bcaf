# liana-py local bivariate statistics, in Dafny

This project models the numeric core of liana-py's spatial and metabolite
methods and proves properties about it. The covered parts are:

- **Local bivariate scores.** The weighted Pearson and Spearman correlation
  of two variables around one spot (`_wcorr`, `_wcoex`). Its masked per-spot
  evaluation (`_masked_coexpressions`). The vectorized correlation, weighted
  cosine and weighted Jaccard over all spots at once.
- **Spatial proximity weights.** Built from a distance matrix: family
  validation, the linear kernel, diagonal removal, cutoff and
  neighbour mask.
- **Permutation p-values.** Computed from a sequence of row permutations.
- **Sign categorisation.** Local scores are encoded as "P"/"N"/"Z" labels.
  Pairs of labels are combined and simplified into co-expression codes.
- **Score dispatch.** The score function is chosen by name.
- **Metabolite estimation.** Per-cell summaries of producing and degrading
  gene sets, and their clipped difference.
- **CellPhoneDB.** The ligand-receptor mean.

Values are real numbers. Square roots, exponential kernels and other
library functions are parameters with the properties the proofs need.
Array-filling code is modelled as methods over arrays (`array2`, and
`array` for `_cpdb_score`), each proved
against a specification function:
- `_masked_coexpressions`;
- the in-place stages of `get_spatial_proximity`;
- the accumulation loop of `_local_permutation_pvals`;
- the zero mask of `_cpdb_score`.

Array expressions are modelled as functions on sequences.

Modules and files:

| file | module | models |
|---|---|---|
| `wrappers.dfy` | `Wrappers` | `Option`, `Result`, and the raised exceptions |
| `numerics.dfy` | `Numerics` | sums, element-wise products, the weighted Cauchy-Schwarz inequality, quotients, `MapEntries` |
| `ranks.dfy` | `Ranks` | `argsort().argsort()` and `rankdata` |
| `bivariate.dfy` | `Bivariate` | `_wcorr`, `_wcoex` |
| `masked.dfy` | `MaskedCoex` | `_masked_coexpressions` |
| `vectorized.dfy` | `Vectorized` | `_vectorized_correlations`, `_vectorized_wcosine`, `_vectorized_jaccard` |
| `proximity.dfy` | `Proximity` | `get_spatial_proximity` |
| `permutation.dfy` | `Permutation` | `_local_permutation_pvals` |
| `categories.dfy` | `Categories` | `_standardize_matrix`, `_encode_as_char`, `_categorize`, `_simplify_cats` |
| `dispatch.dfy` | `Dispatch` | `_handle_functions` |
| `estimations.dfy` | `Estimations` | `_estimations.py` |
| `cellphonedb.dfy` | `CellPhoneDB` | `_cpdb_score` |

## Model

| member | source | states |
|---|---|---|
| Ranks.OrdinalRanksPermutation | liana/method/sp/_bivariate_funs.py:10-12 | The ranks `argsort().argsort()` gives lie in `0..n-1` and are pairwise distinct, so they are a permutation of the positions. |
| Ranks.OrdinalRankOrdered | liana/method/sp/_bivariate_funs.py:11 | A smaller value gets a smaller ordinal rank. Equal values are ordered by position, the tie order a stable sort gives. |
| Ranks.AverageRankProperties | liana/method/sp/_bivariate_funs.py:80-82 | `rankdata` average ranks lie in `[1, n]`. Equal values share a rank, and a smaller value gets a strictly smaller rank. |
| Bivariate.PearsonBound | liana/method/sp/_bivariate_funs.py:17-21 | For non-negative weights and `wsum` equal to their total: both spreads (`denominator_x`, `denominator_y`) are non-negative, and the squared numerator is at most their product. This is the weighted Cauchy-Schwarz inequality. |
| Bivariate.CorrelationBound | liana/method/sp/_bivariate_funs.py:8-26 | The `_wcorr` value lies in `[-1, 1]`. |
| Bivariate.CorrelationSign | liana/method/sp/_bivariate_funs.py:23-26 | The correlation is 0 exactly when the numerator or the denominator is 0. It is positive exactly when the numerator is positive and the denominator is not 0. |
| Bivariate.CorrelationSymmetric | liana/method/sp/_bivariate_funs.py:14-26 | The correlation is symmetric in `x` and `y`. |
| Bivariate.SelfCorrelation | liana/method/sp/_bivariate_funs.py:14-26 | A variable with non-zero spread has correlation 1 with itself. |
| Bivariate.ConstantCorrelation | liana/method/sp/_bivariate_funs.py:19-24 | A constant variable gives correlation 0, because its spread is 0. |
| Bivariate.ZeroWeightCorrelation | liana/method/sp/_bivariate_funs.py:17-24 | All-zero weights give correlation 0. |
| Bivariate.SameMomentsSameCorrelation | liana/method/sp/_bivariate_funs.py:14-26 | The correlation depends only on the weighted moments. |
| Bivariate.WCoex | liana/method/sp/_bivariate_funs.py:30-38 | A method other than 0 (Pearson) or 1 (Spearman) raises `ValueError("method not supported")`, and only such a method does. |
| Bivariate.WCoexBound | liana/method/sp/_bivariate_funs.py:30-38 | A successful `_wcoex` lies in `[-1, 1]`. Method 1 is the Pearson correlation of the ordinal ranks. |
| Bivariate.EmptyWCoex | liana/method/sp/_bivariate_funs.py:23-24 | With no spots left, `_wcoex` returns 0 for either valid method. |
| MaskedCoex.MaskedAbove | liana/method/sp/_bivariate_funs.py:51-52 | Every weight the mask keeps exceeds `weight_thr`. |
| MaskedCoex.MaskedSum | liana/method/sp/_bivariate_funs.py:51-52 | Dropping the entries whose weight is at most the threshold leaves the sum unchanged when those entries are 0. |
| MaskedCoex.MaskedCell | liana/method/sp/_bivariate_funs.py:50-58 | One cell raises the "method not supported" error exactly when the method is invalid. |
| MaskedCoex.IsolatedSpot | liana/method/sp/_bivariate_funs.py:50-58 | A spot with no weight above the threshold scores 0. |
| MaskedCoex.MaskedCellBound | liana/method/sp/_bivariate_funs.py:58 | Every successful cell lies in `[-1, 1]`. |
| MaskedCoex.MaskedPearsonFull | liana/method/sp/_bivariate_funs.py:49-58 | At threshold 0, the masked Pearson cell equals the weighted correlation over all spots. |
| MaskedCoex.FillRow | liana/method/sp/_bivariate_funs.py:54-58 | The inner loop fills row `i` with the cell values and leaves the other rows unchanged. It fails exactly when the method is invalid and there is a column. |
| MaskedCoex.MaskedCoexpressions | liana/method/sp/_bivariate_funs.py:43-60 | The result is a fresh spot-by-pair array whose every entry is its cell's value. The error is raised exactly when the method is invalid and the array is non-empty. |
| Vectorized.CorrelationCell | liana/method/sp/_bivariate_funs.py:85-101 | A vectorized correlation, clipped, lies in `[-1, 1]`. |
| Vectorized.VecMoments | liana/method/sp/_bivariate_funs.py:85-91 | The vectorized numerator and spreads equal those of `_wcorr`. |
| Vectorized.SmallDenominator | liana/method/sp/_bivariate_funs.py:94-98 | A denominator product below `1e-6` gives 0. |
| Vectorized.ZeroRowCorrelation | liana/method/sp/_bivariate_funs.py:78-98 | A spot with all-zero weights gives 0. |
| Vectorized.CorrelationCellAgrees | liana/method/sp/_bivariate_funs.py:85-101 | For non-negative weights and a denominator of at least `1e-6`, the vectorized value equals `_wcorr`'s. |
| Vectorized.VectorizedCorrelations | liana/method/sp/_bivariate_funs.py:64-103 | It raises the "method must be one of" error exactly for methods other than pearson and spearman. Otherwise it returns a pair-by-spot matrix with values in `[-1, 1]`. |
| Vectorized.VectorizedMatchesMasked | liana/method/sp/_bivariate_funs.py:64-103 | Pearson cell `(j, i)` equals masked Pearson cell `(i, j)` at threshold 0, given non-negative proximities and a denominator of at least `1e-6`. |
| Vectorized.VectorizedZeroRow | liana/method/sp/_bivariate_funs.py:78-98 | A spot with an all-zero proximity row gets 0 for every pair, for both methods. |
| Vectorized.CosineDenominatorPositive | liana/method/sp/_bivariate_funs.py:111-113 | With non-negative weights the cosine denominator is at least `eps`. |
| Vectorized.CosineNonNegative | liana/method/sp/_bivariate_funs.py:110-115 | Non-negative values and weights give a non-negative cosine. |
| Vectorized.CosineSymmetric | liana/method/sp/_bivariate_funs.py:110-115 | The cosine is symmetric in `x` and `y`. |
| Vectorized.CosineBound | liana/method/sp/_bivariate_funs.py:106-115 | When both dot products use the same non-negative weights, the cosine lies strictly inside `(-1, 1)`. |
| Vectorized.VectorizedWCosineBound | liana/method/sp/_bivariate_funs.py:106-115 | A symmetric proximity matrix puts every cosine in `(-1, 1)`. Non-negative inputs give non-negative cosines. |
| Vectorized.JaccardCounts | liana/method/sp/_bivariate_funs.py:126-127 | The weighted intersection is non-negative and below the weighted union plus `eps`, which is at least `eps`. |
| Vectorized.JaccardRange | liana/method/sp/_bivariate_funs.py:118-129 | Every Jaccard value lies in `[0, 1)`. |
| Vectorized.JaccardDisjoint | liana/method/sp/_bivariate_funs.py:120-129 | Variables never both positive at a spot give 0. |
| Vectorized.JaccardSymmetric | liana/method/sp/_bivariate_funs.py:120-129 | The Jaccard value is symmetric in `x` and `y`. |
| Vectorized.VectorizedJaccardRange | liana/method/sp/_bivariate_funs.py:118-129 | Every entry of the Jaccard matrix lies in `[0, 1)`. |
| Proximity.GetSpatialProximity | liana/method/sp/_spatial_utils.py:50-89 | An unknown family raises `AssertionError` first. Missing both cutoff and neighbour count raises `ValueError`. Otherwise the result is a fresh `n`-by-`n` array holding kernel, diagonal, cutoff and mask, applied in order. |
| Proximity.ApplyKernel | liana/method/sp/_spatial_utils.py:71-79 | Each entry becomes its family's kernel of the old entry. The linear kernel is applied in two in-place passes. |
| Proximity.ApplyDiagonal | liana/method/sp/_spatial_utils.py:81-82 | With `bypass_diagonal`, the diagonal is set to 0 and nothing else changes. |
| Proximity.ApplyCutoff | liana/method/sp/_spatial_utils.py:84-85 | Entries below the cutoff become 0 and the others are kept. |
| Proximity.ApplyKnn | liana/method/sp/_spatial_utils.py:86-89 | Given a neighbour count, every entry is multiplied by the neighbour mask. |
| Proximity.LinearKernelRange | liana/method/sp/_spatial_utils.py:77-79 | For distance `d >= 0` and `parameter > 0`, the linear kernel lies in `[0, 1]`. It is 1 at `d = 0`, positive below `parameter`, and 0 from `parameter` on. |
| Proximity.ProximityDiagonal | liana/method/sp/_spatial_utils.py:81-82 | With `bypass_diagonal`, every diagonal weight is 0. |
| Proximity.ProximityCutoff | liana/method/sp/_spatial_utils.py:84-85 | Weights below the cutoff become 0 and the others are unchanged. |
| Proximity.ProximitySymmetric | liana/method/sp/_spatial_utils.py:71-89 | Symmetric distances and a symmetric mask give symmetric weights. |
| Proximity.LinearProximityRange | liana/method/sp/_spatial_utils.py:77-89 | Linear weights under a 0/1 mask lie in `[0, 1]`. |
| Proximity.SpatialDmKeepsDistances | liana/method/sp/_spatial_utils.py:51-79 | "spatialdm" passes validation but matches no kernel branch, so its weights are the raw distances. |
| Permutation.PermutationBounded | liana/method/sp/_spatial_utils.py:144 | Every index of a permutation of `0..n-1` is below `n`. |
| Permutation.PermuteRowsMultiset | liana/method/sp/_spatial_utils.py:144-145 | Permuting the rows of `x_mat` keeps its multiset of rows. |
| Permutation.HitCount | liana/method/sp/_spatial_utils.py:146-149 | The hit count after `k` permutations is at most `k`. |
| Permutation.PValueRange | liana/method/sp/_spatial_utils.py:151-157 | Every p-value lies in `[0, 1]`. It is 1 exactly when the cell is masked, or when every permutation scores a hit. |
| Permutation.AddHits | liana/method/sp/_spatial_utils.py:145-149 | One permutation adds its hit indicator to every count. |
| Permutation.CountHits | liana/method/sp/_spatial_utils.py:140-149 | After the permutation loop, each entry holds the number of permutations whose score hits. |
| Permutation.LocalPermutationPvals | liana/method/sp/_spatial_utils.py:108-159 | The result is a fresh pair-by-spot array with the hit share, or 1 where positive-only masks the cell. |
| Categories.CentredColumnsSumToZero | liana/method/sp/_spatial_utils.py:163 | Every column of `mat - mat.mean(axis=0)` sums to 0. |
| Categories.StandardizedColumns | liana/method/sp/_spatial_utils.py:162-166 | Standardised columns sum to 0. The global form also has a unit sum of squares. |
| Categories.EncodeAsChar | liana/method/sp/_spatial_utils.py:169-174 | The labels have the input's shape, and each is "P", "N" or "Z". |
| Categories.EncodeRawSigns | liana/method/sp/_spatial_utils.py:171-173 | If any entry is negative, each label is the sign of its raw value. |
| Categories.EncodeCentredSigns | liana/method/sp/_spatial_utils.py:171-173 | If no entry is negative, "P" means above the column mean and "N" means below it. |
| Categories.EncodeBalanced | liana/method/sp/_spatial_utils.py:171-173 | If no entry is negative, a column has a "P" exactly when it has an "N". |
| Categories.CategorizeSplits | liana/method/sp/_spatial_utils.py:177-179 | Each category splits back into the x label followed by the y label. |
| Categories.SimplifyAsWrittenKeepsZ | liana/method/sp/_spatial_utils.py:194 | As written, every category that contains "Z" stays an unreplaced label. |
| Categories.SimplifyAsWrittenCounterexample | liana/method/sp/_spatial_utils.py:194 | As written, "PZ" is left as the label "PZ". |
| Categories.SimplifyAgrees | liana/method/sp/_spatial_utils.py:194 | Without "Z", the written and the intended simplification agree. |
| Categories.SimplifyCodes | liana/method/sp/_spatial_utils.py:182-194 | As intended, every category of two labels becomes a code: 1 for PP, -1 for PN or NP, and 0 for NN or any Z. |
| Categories.SimplifiedEncodings | liana/method/sp/_spatial_utils.py:169-194 | Encoding, categorising and simplifying two matrices gives 1 where both labels are "P", -1 where one is "P" and the other "N", and 0 where both are "N" or either is "Z". |
| Dispatch.HandleFunctions | liana/method/sp/_spatial_utils.py:198-214 | "morans" raises `ValueError("Function not implemented")`. The six names select a function whose name is the lower-cased input. Any other name gives nothing. |
| Dispatch.HandleCaseInsensitive | liana/method/sp/_spatial_utils.py:199 | The result depends only on the lower-cased name. |
| Dispatch.HandleName | liana/method/sp/_spatial_utils.py:201-212 | Every score function is selected by its own name. |
| Dispatch.TargetsAccepted | liana/method/sp/_spatial_utils.py:11 | Each dispatched function passes a method that the bivariate functions accept, so neither error is raised. |
| Estimations.MeanPerCell | liana/method/ml/estimations/_estimations.py:7-10 | There is one value per cell, and an empty gene list gives zeros. |
| Estimations.MeanPerCellBetween | liana/method/ml/estimations/_estimations.py:10 | Each cell's mean lies between the smallest and the largest selected value. |
| Estimations.NnzMeanPerCell | liana/method/ml/estimations/_estimations.py:12-19 | There is one value per cell, and an empty gene list gives zeros. |
| Estimations.NnzMeanNoneStored | liana/method/ml/estimations/_estimations.py:17-18 | A cell with no stored entry gets 0, and its sum is 0 too. |
| Estimations.NnzMeanAllStored | liana/method/ml/estimations/_estimations.py:15-18 | A cell storing every selected entry gets the plain mean. |
| Estimations.NnzMeanAtLeastMean | liana/method/ml/estimations/_estimations.py:15-18 | For non-negative expression, the non-zero mean is at least the mean. |
| Estimations.MaxPerCell | liana/method/ml/estimations/_estimations.py:21-25 | There is one value per cell, and an empty gene list gives zeros. |
| Estimations.MaxPerCellBounds | liana/method/ml/estimations/_estimations.py:24 | The maximum is one of the cell's values, bounds all of them, and is at least their mean. |
| Estimations.ParseEstimator | liana/method/ml/estimations/_estimations.py:63-72 | A name outside the five keys raises `ValueError` with the keys listed. Any other name selects the estimator stored under it. |
| Estimations.ParseEstFunKey | liana/method/ml/estimations/_estimations.py:63-72 | Each estimator is found under its own key. |
| Estimations.EstimateNonNegative | liana/method/ml/estimations/_estimations.py:7-25 | The mean, non-zero mean and maximum of non-negative expression are non-negative. |
| Estimations.GetGenesets | liana/method/ml/estimations/_estimations.py:97-100 | Every returned gene is in `vars`. |
| Estimations.GenesetMembership | liana/method/ml/estimations/_estimations.py:97-100 | A gene is returned exactly when it is in `vars` and a row links it to the metabolite in that direction. |
| Estimations.GenesetOrder | liana/method/ml/estimations/_estimations.py:97-100 | The genes are a subsequence of the `GENE` column, in row order. |
| Estimations.Unique | liana/method/ml/estimations/_estimations.py:74 | `unique()` returns the same values, without duplicates. |
| Estimations.UniqueFirstAppearance | liana/method/ml/estimations/_estimations.py:74 | The unique values come in order of first appearance. |
| Estimations.GetEst | liana/method/ml/estimations/_estimations.py:102-103 | Adding back degradation gives production, entry by entry. |
| Estimations.ClipNonNegative | liana/method/ml/estimations/_estimations.py:83 | Clipping leaves non-negative entries unchanged and sets negative entries to 0. |
| Estimations.MetalinksEstimation | liana/method/ml/estimations/_estimations.py:38-90 | An invalid estimator name raises the `est_fun` error, and is checked first. An empty association table raises the `DataFrame` shape error unless there is exactly one cell. These are the only errors. Otherwise the result has one non-negative row per unique metabolite, in order of first appearance, and one column per cell. |
| Estimations.EstimatePositive | liana/method/ml/estimations/_estimations.py:79-83 | An estimate is positive exactly when production exceeds degradation, and then it equals their difference. |
| Estimations.EstimateWithoutDegradation | liana/method/ml/estimations/_estimations.py:76-83 | A metabolite with no present degrading gene keeps its production estimate. |
| CellPhoneDB.CpdbScore | liana/method/sc/_cellphonedb.py:22-26 | There is one LR mean per row: 0 where either side is 0, and the average otherwise. The p-values are computed from these means. |
| CellPhoneDB.LrMeanBounds | liana/method/sc/_cellphonedb.py:22-24 | For non-negative means, the LR mean lies in `[0, max]` and is 0 exactly when either side is 0. When both sides are non-zero it is at least their minimum. |
| CellPhoneDB.LrMeanSymmetric | liana/method/sc/_cellphonedb.py:23 | The LR mean is symmetric in ligand and receptor. |

## Left out

- Floating point: the model works over the reals. It leaves out float32 and float16 rounding, NaN, infinities and numba's rounding. `1e-6` and `eps` (`2^-23`) are exact constants.
- Library functions:
  - Square roots and `np.exp` are parameters. A square root is any function returning the non-negative root.
  - Euclidean distances (`pdist`, `squareform`) are an input distance matrix.
  - `NearestNeighbors.kneighbors_graph` is an input 0/1 neighbour mask.
- Storage is not modelled: the `adata.obsm` write, `csr_matrix`, the `float16` downcast above 1000 spots, and `inplace`.
- Parallelism: numba `prange` and `cache` are not modelled. The loops run sequentially.
- Randomness: `np.random.default_rng(seed)` is replaced by the input sequence of permutations. `tqdm` progress bars are not modelled.
- The `misty_rbf` kernel branch cannot be reached, because validation rejects that family.
- Proximity.GetSpatialProximity: requires `parameter != 0` for the linear family when a cutoff or a neighbour count is given. With `parameter = 0`, NumPy's float division gives infinities, and NaN for `0/0` on the diagonal, which reals cannot represent. Without either argument the `ValueError` is raised first and is modelled.
- Permutation.LocalPermutationPvals: requires at least one permutation. The source would divide by `n_perm = 0`.
- Permutation.LocalPermutationPvals: `local_fun` is a parameter. Its extra `kwargs` are not modelled.
- Permutation.LocalPermutationPvals: requires every permuted score to have the pair-by-spot shape of `local_truth`. NumPy would broadcast or raise on another shape. `_masked_coexpressions` returns spot-by-pair, so a caller passing it must transpose the result.
- Categories.StandardizeMatrix: the global form requires every centred column to have a non-zero sum of squares. A constant column gives NaN in the source.
- Bivariate.WCorr: requires non-negative weights that sum to `weight_sum`, as every caller in the source passes. Negative proximities are not modelled.
- MaskedCoex.MaskedCoexpressions: requires non-negative weights. Negative proximities are not modelled.
- Vectorized.VectorizedWCosine: requires non-negative proximities, which keep the denominator positive.
- Vectorized.VectorizedJaccard: requires non-negative proximities, which keep the denominator positive.
- Bivariate.WCoexBound, Ranks.OrdinalRank, Ranks.OrdinalRankOrdered, Ranks.OrdinalRanksPermutation: rank ties by position. NumPy's default `argsort` is not stable, so the source may order tied values differently.
- Vectorized.VectorizedCorrelations: no agreement between the vectorized and masked Spearman paths is claimed. `rankdata` gives average ranks over all spots, while the masked path ranks with `argsort().argsort()` over the kept spots only.
- Dispatch.HandleFunctions: lower-cases ASCII letters only, not all of Unicode.
- `_bivariate_funs.py` does not define the aliases that `_spatial_utils.py:11` imports (`_vectorized_pearson`, `_masked_pearson` and the others). The model maps each alias to the function of that file it names, with the matching method argument.
- Estimations.Estimate: `gmean_per_cell` and `hmean_per_cell` (scipy `gmean`, `hmean`) are an uninterpreted parameter assumed to give one value per cell. The source calls them with the default axis 0, which is not checked here.
- Estimations.AnnData: the expression matrix is dense, with a flag for which entries the sparse matrix stores. Gene names are matched by first occurrence.
- The verbose messages of `_metalinks_estimation` are not modelled.
- Estimations.MetalinksEstimation: every gene list is treated as a Python list, so an empty list gives zeros. NumPy builds a 2-D object array at `_estimations.py:76-77` when all gene lists have the same length, which always happens with a single metabolite. The estimators then get arrays, and their `genes == []` test (`_estimations.py:8`, `:13`, `:22`) compares element-wise. Depending on the NumPy version this gives an empty array that counts as false, or an error, and an empty list then yields NaN means instead of zeros. This behaviour is not modelled.
- `_calculate_pvals` is an uninterpreted parameter of `CellPhoneDB.CpdbScore`. `MethodMeta` and `Method` registration are not modelled.

## Findings

| source | as written | input that shows it | evidently intended | confidence | as-written member | corrected member |
|---|---|---|---|---|---|---|
| liana/method/sp/_spatial_utils.py:194 | `df.replace({r'(^*Z*$)': 0, ...})` without `regex=True`. The key is compared literally, so no cell holding a "Z" matches it. (As a regular expression, `^*` would not compile either.) | the category "PZ", or any of "ZP", "NZ", "ZN", "ZZ" | Every category containing "Z" becomes 0, as the function's own description says. | not executed | Categories.SimplifyAsWrittenCounterexample | Categories.SimplifyCodes |
