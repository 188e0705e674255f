# fastMISTgen grid interpolation, modelled in Dafny

`fastMISTgen` holds a table of stellar evolution models (MIST tracks). Each
row has label values (`EEP`, `initial_mass`, `initial_[Fe/H]` by default)
and predicted quantities (`log(Age)`, `Mass`, `log(Rad)`, …). The class
answers a query `(mass, eep, feh)` by multilinear interpolation on the grid
of label values.

- **Construction** (`__init__`, `make_lib`, `addagewgt`, `lib_as_grid`):
  - Optionally appends an age-weight column.
  - For every label, builds the sorted unique grid values (`gridpoints`) and their gaps (`binwidths`).
  - Digitises every row into an integer pixel coordinate (`X`).
- **Query** (`getMIST` → `weights` → `params_to_grid`, `knearest_inds`, `linear_weights`):
  - Converts the query into a fractional pixel coordinate.
  - Collects the stored vertices within radius √ndim.
  - Weights each vertex by the volume of the hypercube cut off by the opposite corner.
  - Keeps the vertices with positive weight and normalises their weights to sum to one.
  - Returns `[eep, mass, feh]` followed by the weighted sum of the retained output rows, or `None` on any `ValueError`.

The project is split into modules:

| file | module | contents |
|---|---|---|
| `outcomes.dfy` | `Outcomes` | `Option`, `Result` |
| `seqs.dfy` | `Seqs` | index helpers standing in for numpy: boolean-mask indices (`Where`), fancy indexing (`Select`, `Mask`), columns |
| `series.dfy` | `Series` | sums, normalisation, dot product, convex-combination bounds |
| `axis.dfy` | `Axis` | one label axis: `np.unique`, `np.diff`, `np.digitize` (both sides), Python's negative indexing, the per-axis pixel conversion of `params_to_grid` |
| `hypercube.dfy` | `Hypercube` | the per-axis tent weight and the vertex weight of `linear_weights`; squared pixel distance |
| `interp.dfy` | `Interp` | the immutable grid value and the query path: `ParamsToGrid`, `KnearestInds`, `LinearWeights`, `Weights`, `GetMist` |
| `ageweight.dfy` | `AgeWeight` | `np.gradient`, tracks and the age weights of `addagewgt` |
| `fastmist.dfy` | `FastMist` | the class `FastMistGen`: fields updated in place by the constructor, `AddAgeWgt` and `LibAsGrid` |

After construction the object is only read. `FastMistGen.Snapshot()` turns its fields into an `Interp.Grid` value, and `Interp.GetMist` runs on that value. The constructor ensures `Interp.Built(Snapshot())`. From that, `Interp.BuiltWellFormed` gives `Interp.WellFormed`, the shape half of the query path's preconditions. The other half, `Interp.KnownLabels` (at least two labels, each one of `EEP`, `initial_mass`, `initial_[Fe/H]`), is not promised by the constructor, because `__init__` accepts any label list; with other labels it is `getMIST` that raises.

Dictionaries keyed by label name (`gridpoints`, `binwidths`, the keyword arguments of `params_to_grid`) become sequences indexed by the label's position in `labels`. `output` is held row-major: one row of predictions per model, which is the `.T` that `make_lib` applies. All floating-point numbers are Dafny `real`.

The source and the natural reading of the grid differ in three places. The model follows the code in all of them:

- **Query at an axis maximum is rejected.** Such a query is inside the grid. But `digitize(right=False) - 1` then lands on the last grid index, and the bin width lookup at that index raises `IndexError`, which becomes `ValueError` (minesweeper_OLD/fastMISTmod.py:158-169). `Interp.ParamsToGrid` fails exactly when some value is at or above its axis maximum. Interpolation therefore reproduces a stored model exactly only when no label of that model sits at its axis maximum (`Interp.ExactAtVertex` carries that requirement), and a query at the maximum mass or EEP returns `None` (`Interp.GetMistRejectsOutOfGrid`).
- **The age gradient follows table row order.** `addagewgt` selects a track with a boolean mask (minesweeper_OLD/fastMISTmod.py:109-111), so `np.gradient` runs over the track's rows in the order the table stores them, not sorted by phase (EEP). `AgeWeight.Track` keeps that row order. The two agree only when every track is stored by increasing EEP.
- **Query below an axis minimum is not rejected during conversion.** The bin index is `-1`, which Python wraps to the last element. The resulting pixel coordinate lies below −2 (`Axis.AxisToPixelBelowMin`). No vertex then has positive weight, so `weights` rejects the query later: either no neighbours are found or the weights sum to zero (`Interp.RejectBelowMin`).

## Model

| member | source | states |
|---|---|---|
| Axis.Unique | minesweeper_OLD/fastMISTmod.py:138 | `np.unique` of a column: strictly increasing and holding exactly the column's values |
| Axis.SortedSetDetermined | minesweeper_OLD/fastMISTmod.py:138 | two strictly increasing sequences with the same values are equal, so the grid axis is determined by the column's set of values |
| Axis.Diff | minesweeper_OLD/fastMISTmod.py:139 | `np.diff` has one entry fewer, and every gap of a strictly increasing axis is positive |
| Axis.DiffTelescopes | minesweeper_OLD/fastMISTmod.py:139 | the first grid value plus the first k bin widths is the k-th grid value |
| Axis.DigitizeRight | minesweeper_OLD/fastMISTmod.py:141-142 | `digitize(right=True)` is the number of bins strictly below x; a value on the grid gets its own index |
| Axis.DigitizeLeft | minesweeper_OLD/fastMISTmod.py:158 | `digitize(right=False)` is the number of bins at or below x; for a value on the grid the bin before that index holds the value |
| Axis.AxisToPixel | minesweeper_OLD/fastMISTmod.py:158-170 | the per-axis conversion has no result (the `IndexError`) exactly when the query is at or above the axis maximum |
| Axis.AxisToPixelInBin | minesweeper_OLD/fastMISTmod.py:158-170 | for min ≤ t < max: the integer part i is a bin with `g[i] ≤ t < g[i+1]`, the fraction is in [0,1), the fraction is zero exactly when t is a grid value, and the pixel maps back to t |
| Axis.AxisToPixelBelowMin | minesweeper_OLD/fastMISTmod.py:158-164 | below the minimum, index −1 wraps around and the pixel coordinate is below −2 |
| Axis.PixelAtGridValue | minesweeper_OLD/fastMISTmod.py:158-170 | every grid value other than the maximum converts to its own integer index |
| Hypercube.AxisWeight | minesweeper_OLD/fastMISTmod.py:227-229 | the masked numpy expression equals the tent `1-\|dx\|` for \|dx\| < 1 and 0 otherwise, so it lies in [0,1] |
| Hypercube.VertexWeight | minesweeper_OLD/fastMISTmod.py:231 | the product over axes lies in [0,1] and is positive exactly when the vertex is within one pixel of the query on every axis |
| Hypercube.WeightAtVertex | minesweeper_OLD/fastMISTmod.py:224-231 | a query exactly on a vertex gives that vertex weight 1 |
| Hypercube.WeightBeyondOnePixel | minesweeper_OLD/fastMISTmod.py:229 | a vertex one pixel or more away on any axis gets weight 0 |
| Hypercube.SqDist | minesweeper_OLD/fastMISTmod.py:208-209 | the squared pixel distance of the ball query is never negative |
| Hypercube.UnitCubeWithinRadius | minesweeper_OLD/fastMISTmod.py:208-209 | a vertex within one pixel on every axis is within squared distance ndim |
| Interp.BuiltWellFormed | minesweeper_OLD/fastMISTmod.py:137-143 | after `lib_as_grid` every axis is usable and `gridpoints[p][X[r][p]] == libparams[r][p]` for every row and label |
| Interp.ParamsToGrid | minesweeper_OLD/fastMISTmod.py:147-170 | on a grid of two labels or more (one label raises an uncaught `TypeError`): fails exactly when some query value is at or above its axis maximum; otherwise gives one coordinate per label, each the per-axis conversion |
| Interp.KnearestInds | minesweeper_OLD/fastMISTmod.py:191-210 | the neighbour indices are ascending, in range, and hold exactly the rows within squared distance ndim of the query |
| Interp.NeighboursCoverCube | minesweeper_OLD/fastMISTmod.py:208-209 | every vertex with positive weight is among the neighbours |
| Interp.LinearWeights | minesweeper_OLD/fastMISTmod.py:212-231 | one weight per listed vertex, each in [0,1] |
| Interp.Weights | minesweeper_OLD/fastMISTmod.py:172-189 | on success one weight per retained index, and the weights sum to 1 (the full characterisation is in `Interp.WeightsOk` and `Interp.WeightsSucceedsIff`) |
| Interp.MaskedWeights | minesweeper_OLD/fastMISTmod.py:185-187 | masking weights and indices by the same mask keeps each index paired with its own vertex weight |
| Interp.RetainedVertices | minesweeper_OLD/fastMISTmod.py:179-187 | the retained indices are ascending and are exactly the rows with positive vertex weight; dropping zero weights leaves the sum unchanged |
| Interp.WeightsOk | minesweeper_OLD/fastMISTmod.py:172-189 | on success: indices ascending, in range and exactly the positive-weight vertices; weights all positive, summing to 1, each the vertex weight divided by the raw sum |
| Interp.WeightsSucceedsIff | minesweeper_OLD/fastMISTmod.py:178-184 | `weights` succeeds exactly when the query is below every axis maximum and some stored vertex has positive weight |
| Interp.RejectBelowMin | minesweeper_OLD/fastMISTmod.py:158-164 | a query below any axis minimum ends in a `ValueError` from `weights` |
| Interp.QueryVector | minesweeper_OLD/fastMISTmod.py:174-176 | the renamed keyword arguments, one value per label in label order |
| Interp.GetMist | minesweeper_OLD/fastMISTmod.py:120-128 | `None` exactly when `weights` raises; otherwise `[eep, mass, feh]` followed by one value per prediction |
| Interp.GetMistRejectsOutOfGrid | minesweeper_OLD/fastMISTmod.py:120-128 | a query at or above the maximum or below the minimum of any axis returns `None` |
| Interp.GetMistWithinRetainedRange | minesweeper_OLD/fastMISTmod.py:125 | each interpolated output lies between the least and greatest value of that output over the retained vertices |
| Interp.StoredModelPixel | minesweeper_OLD/fastMISTmod.py:141-143 | a stored model's own labels, all below their axis maxima, convert to its integer pixel coordinate |
| Interp.OtherVertexZero | minesweeper_OLD/fastMISTmod.py:227-231 | at an integer query coordinate every other vertex has weight 0 |
| Interp.DistinctPixels | minesweeper_OLD/fastMISTmod.py:141-143 | models with different label rows have different pixel coordinates |
| Interp.SingleRetained | minesweeper_OLD/fastMISTmod.py:180-189 | when one vertex has weight 1 and all others 0, `weights` returns that vertex alone with weight 1 |
| Interp.ExactAtVertex | minesweeper_OLD/fastMISTmod.py:172-189 | querying a stored model (distinct label rows, no label at its axis maximum) retains that model alone with weight 1 |
| Interp.GetMistExactAtVertex | minesweeper_OLD/fastMISTmod.py:120-128 | querying such a model returns `[eep, mass, feh]` followed by exactly its stored outputs |
| Series.Normalize | minesweeper_OLD/fastMISTmod.py:188 | `w / w.sum()` sums to 1, rescales each weight by the sum, and keeps the positive entries positive |
| Series.SumMask | minesweeper_OLD/fastMISTmod.py:185-187 | dropping zero weights leaves the sum unchanged |
| Series.SumPositiveIff | minesweeper_OLD/fastMISTmod.py:183 | a sum of non-negative weights is positive exactly when some weight is |
| Series.WeightedSumBounds | minesweeper_OLD/fastMISTmod.py:125 | a combination with non-negative weights of values in [lo, hi] lies between lo and hi times the total weight |
| Series.Dot | minesweeper_OLD/fastMISTmod.py:125 | `np.dot(wghts, rows)` has one entry per output column (its bounds are `Series.ConvexCombination`, its single-row case `Series.DotSingle`) |
| Series.ConvexCombination | minesweeper_OLD/fastMISTmod.py:125 | a dot product with non-negative weights summing to 1 stays within the rows' bounds, column by column |
| Series.DotSingle | minesweeper_OLD/fastMISTmod.py:125 | a single weight 1 returns its row unchanged |
| AgeWeight.Gradient | minesweeper_OLD/fastMISTmod.py:111 | `np.gradient` keeps the length |
| AgeWeight.GradientSum | minesweeper_OLD/fastMISTmod.py:111 | the gradient's sum equals the track's age span plus half its first and last steps |
| AgeWeight.IncreasingGradientPositive | minesweeper_OLD/fastMISTmod.py:111-112 | along a track of strictly increasing ages every gradient entry and the sum are positive |
| AgeWeight.Track | minesweeper_OLD/fastMISTmod.py:109 | the rows of a (mass, [Fe/H]) pair: ascending, in range, exactly the rows with that mass and [Fe/H] |
| AgeWeight.TrackWeights | minesweeper_OLD/fastMISTmod.py:112 | `grad / sum(grad)` has one weight per track row and sums to 1 |
| AgeWeight.AgeWeightOfTrackRow | minesweeper_OLD/fastMISTmod.py:112 | the j-th row of a track gets the track's j-th weight |
| AgeWeight.TrackAgeWeightsSumToOne | minesweeper_OLD/fastMISTmod.py:107-112 | over every track the per-row age weights sum to 1 |
| AgeWeight.IncreasingTrackPositiveWeights | minesweeper_OLD/fastMISTmod.py:109-112 | a track of two or more rows with strictly increasing ages gives every row a positive weight |
| AgeWeight.ThreePointTrack | minesweeper_OLD/fastMISTmod.py:111-112 | ages 1, 2, 4 give gradient 1, 1.5, 2 and weights 2/9, 1/3, 4/9 |
| Seqs.IndexOf | minesweeper_OLD/fastMISTmod.py:104 | `list.index`: the first position holding the value |
| FastMist.AgeWeightColumn | minesweeper_OLD/fastMISTmod.py:104-112 | the `age_wgtarr` the loops produce, one weight per model (entry by entry in `FastMist.AgeWeightColumnAt`) |
| FastMist.AppendColumn | minesweeper_OLD/fastMISTmod.py:116 | `np.vstack` of the column-major table with a column: every row keeps its outputs and gains that column's entry last |
| FastMist.WithAgeWeights | minesweeper_OLD/fastMISTmod.py:116 | the output table with the age-weight column appended, one row per model |
| FastMist.AgeWeightColumnAt | minesweeper_OLD/fastMISTmod.py:109-112 | entry r of the age-weight column is row r's weight within its own (mass, [Fe/H]) track |
| FastMist.ColumnHoldsTracks | minesweeper_OLD/fastMISTmod.py:107-112 | on the rows of every track the age-weight column is that track's `grad / sum(grad)` |
| FastMist.AgeWeightColumnSumsToOne | minesweeper_OLD/fastMISTmod.py:105-112 | the column `addagewgt` writes sums to 1 over every (mass, [Fe/H]) track |
| FastMist.FastMistGen.constructor | minesweeper_OLD/fastMISTmod.py:49-82 | defaults for `labels`, `predictions` and `ageweight`; `modpararr` is labels then predictions; outputs gain the age-weight column when asked; the grid is built from the table; age weighting needs the `EEP`, `initial_mass`, `initial_[Fe/H]` labels and `log(Age)`, as `addagewgt` reads them |
| FastMist.FastMistGen.AddAgeWgt | minesweeper_OLD/fastMISTmod.py:103-118 | appends `Agewgt` to `predictions` and `modpararr`, and to every output row its age weight |
| FastMist.FastMistGen.AgeWeights | minesweeper_OLD/fastMISTmod.py:104-112 | the array the loops fill is exactly the age-weight column: each row's weight within its own track |
| FastMist.FastMistGen.ScatterTracks | minesweeper_OLD/fastMISTmod.py:104-112 | the nested loops over [Fe/H] and mass values, starting from zeros, write every row, and the result is any column that holds each track's weights |
| FastMist.FastMistGen.WriteFehGroup | minesweeper_OLD/fastMISTmod.py:108-112 | the inner loop writes every row with that [Fe/H] and leaves the others unchanged |
| FastMist.FastMistGen.WriteTrack | minesweeper_OLD/fastMISTmod.py:109-112 | the slice assignment writes the track's rows with their weights and leaves the others unchanged |
| FastMist.FastMistGen.LibAsGrid | minesweeper_OLD/fastMISTmod.py:130-145 | the fields afterwards are exactly the unique values, gaps and right-digitised pixel coordinates of the table |

## Left out

- `make_lib` (minesweeper_OLD/fastMISTmod.py:84-101) reads an HDF5 file. The model takes the label rows and output rows as constructor parameters instead. The `MISTrename` name mapping (lines 37-44) only chooses HDF5 column names, so it is not modelled. The model file path, `verbose` and the progress `print`s are left out for the same reason.
- `addagewgt` computes `10.0**log(Age)`. The model takes the linear ages as a parameter (`linAges`) because exponentiation is outside `real` arithmetic. The `log(Age)` prediction is still required to exist, as `predictions.index` demands.
- The scipy `cKDTree` and `query_ball_point` are replaced by a linear scan with the same result set (`Interp.KnearestInds`). Distances are compared squared against `ndim` instead of `sqrt(ndim)`. Building the tree (`_kdt`) is not modelled.
- Floating point: rounding and NaN are not modelled, and numbers are exact reals. `self.null`, an array of NaNs, is unused by the core and is left out.
- Degenerate numpy inputs are stated as preconditions rather than modelled as error paths:
  - an axis with a single value, where `binwidths` is empty;
  - a (mass, [Fe/H]) pair with fewer than two rows, where `np.gradient` raises;
  - a track whose gradient sums to zero, where the division yields NaN.
- A label other than `EEP`, `initial_mass` and `initial_[Fe/H]` makes `params_to_grid` raise `KeyError`, which `getMIST` does not catch. `Interp.GetMist` requires known labels instead (`KnownLabels`).
- ParamsToGrid: a grid with fewer than two labels is excluded by a precondition (and `Interp.KnownLabels` carries it for `Interp.GetMist`). With one label `np.squeeze` turns the index array into a 0-d array, `zip` raises `TypeError`, and `getMIST` does not catch it, so the source has no result to model.
- constructor: `labels=None` passed explicitly makes `len(None)` raise in `__init__`. The model's `None` stands only for an argument left out, which takes the default label list. (An explicit `predictions=None` does take the default, as the source does.)
- `getMIST`'s default arguments (`mass=1.0, eep=300, feh=0.0`) are not modelled: `Interp.GetMist` takes all three explicitly. Its `**kwargs` are accepted and ignored by the source, so they are left out.
- `Interp.Strictness` is the constant 0.0 that `__init__` sets. Nothing in the core changes `_strictness`.
- `Interp.Weights` models the in-place `wghts /= wghts.sum()` and the popping of keyword keys as values computed from the inputs. Both mutate only local objects.
- Python aliasing: when the caller passes its own `predictions` list, `addagewgt` appends `Agewgt` to the caller's list too. The model copies sequences, so this is not captured.
- `addagewgt` runs while `output` is still column-major, before the `.T` of `make_lib`. The model keeps `output` row-major throughout and appends the age weight to each row, which gives the same table after the transpose.
- minesweeper_OLD/MINESweeper.py (the sampler and optimiser driving the generator) is not part of this model.
