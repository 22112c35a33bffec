# Occupancy mapping for an active-sensing UAV, modelled in Dafny

A downward-looking camera on a UAV sees a square footprint of a grid of
cells. Its reading of a cell is wrong with a probability that grows with
altitude: `sigma = 1 - exp(-0.015 * altitude)`. The mapper keeps a belief
`P(occupied)` for every cell and improves it by loopy belief propagation
between 4-neighbouring cells, under a 2x2 pairwise potential. The potential
is uniform ("equal"), fixed ("biased"), or adaptive. The adaptive one comes
from the Pearson correlation between the centres of 3x3 blocks of the last
observation and the sums of their four neighbours.

The model covers:

- the windowed propagation of `src/mapper_LBP.py` (module `MapperLBP`). A
  5 x N0 x N1 message array, one synchronous pass per iteration over four
  directional slices of the footprint, then a belief read-off. Beside it,
  the per-cell Bayesian update `update_belief_OG`.
- the full-grid reference propagation of `src/mapper.py` (module `Mapper`).
  Messages on directed edges, local-evidence fusion, marginals, and the
  stand-alone `get_range` / `get_observations`.
- the two helper libraries: `helper.py` (module `Helper`) and
  `src/testing/src/helper.py` (module `TestingHelper`). Block sampling,
  the Pearson coefficient, adaptive weights, normalisation, neighbour and
  footprint enumeration, MSE, coverage and metrics.
- the camera of `src/testing/src/uav_camera.py` (module `UavCamera`). Pose
  state, coordinate conversion, footprint clipping, observation, and the
  discrete move machine.
- the terrain of `terrain_creation.py` (module `Terrain`). Position/index
  conversion, map replacement, and the row-major cell iterator.

Shared modules:

| module | contents |
|---|---|
| `Common` | results and errors, Python `int()` and `round()`, slice bounds |
| `Records` | grid and position records |
| `Stats` | sums and means |
| `Potential` | the 2x2 potential |
| `Sensor` | error rate and flip rule |
| `Pairwise` | `pairwise_potential` |
| `Grids` | 2-D sequences, flattening, row-major enumeration, neighbours |
| `Prob` | two-state vectors and products of messages |

Modelling choices:

- Stateful code is imperative Dafny. The mappers, the camera and the
  terrain are classes whose methods change their fields or arrays. The
  loops of the source are methods with loop invariants, proved equal to
  specification functions.
- Python exceptions and numpy's NaN-producing divisions are error results
  (`Result` / `Option<Error>`).
- Transcendental functions (`exp`, `sqrt`, `tan`) and random draws are
  parameters.

## Model

| member | source | states |
|---|---|---|
| Common.Trunc | src/testing/src/uav_camera.py:68 | `int()` of a float truncates toward zero: the result is within 1 of the argument, on the side of zero |
| Common.TruncMonotonic | src/mapper_LBP.py:139-140 | truncation is monotone |
| Common.TruncOfInt | src/testing/src/uav_camera.py:68 | truncating a whole number gives it back |
| Common.RoundHalfEven | src/testing/src/uav_camera.py:79 | `round()` gives the nearest integer, and the even one on a tie |
| Common.RoundMonotonic | src/mapper.py:226-227 | rounding is monotone |
| Common.RoundOfInt | src/mapper.py:226-227 | rounding a whole number gives it back |
| Common.SliceBounds | src/testing/src/uav_camera.py:110 | a Python slice `lo:hi` selects an ordered range inside the axis; an in-range slice selects exactly `[lo, hi)` |
| Common.Clip | src/testing/src/uav_camera.py:110 | a slice bound is clamped into the axis and left alone when inside it |
| Grids.Full | terrain_creation.py:16 | `np.full`/`np.ones * v`: a rectangular grid of the given shape holding `v` everywhere |
| Grids.Submap | src/testing/src/uav_camera.py:110 | `g[lo0:hi0, lo1:hi1]` has the shape of the clamped slices, and entry (r, c) is `g[lo0' + r][lo1' + c]` |
| Grids.FlattenMembership | src/mapper.py:84-86 | a value is in the flattening exactly when it is a cell of the grid |
| Grids.FlattenLength | src/mapper.py:84-86 | a rectangular grid flattens to rows * cols values |
| Grids.MinOf | helper.py:93 | `np.min` is an element no greater than any other |
| Grids.MaxOf | helper.py:94 | `np.max` is an element no smaller than any other |
| Grids.MinOfInt | src/mapper_LBP.py:142 | `np.min` of an index array is an element no greater than any other |
| Grids.MaxOfInt | src/mapper_LBP.py:143 | `np.max` of an index array is an element no smaller than any other |
| Grids.RowMajorCells | helper.py:134-138 | the double loop lists exactly the cells of `[iMin, iMax) x [jMin, jMax)`, each once, `max(0, h) * max(0, w)` of them |
| Grids.RowMajorComplete | helper.py:135-137 | every cell of the rectangle is listed |
| Grids.RowMajorSound | helper.py:135-137 | only cells of the rectangle are listed |
| Grids.RowMajorInjective | helper.py:135-137 | no cell is listed twice |
| Grids.EnumerateCells | src/testing/src/helper.py:150-154 | the nested append loops produce the row-major list of the rectangle |
| Grids.KeepInside | helper.py:112-114 | filtering keeps exactly the in-bounds candidates, and no more elements than it was given |
| Grids.InBoundNeighbours | src/mapper.py:19-22 | the kept neighbours are exactly the in-bounds cells among top, bottom, left and right |
| Grids.InBoundNeighboursOrdered | helper.py:106-114 | the neighbours come in the order top, bottom, left, right, each at most once |
| Grids.KeepInsideOrdered | helper.py:112-114 | filtering keeps the order of the candidates |
| Grids.NeighbourSymmetric | src/mapper.py:17-22 | being an in-bounds neighbour is symmetric, so every directed edge has its reverse |
| Stats.Mean | src/testing/src/helper.py:112-113 | `np.mean` of a non-empty sequence times its length is its sum |
| Stats.SumPrefix | helper.py:45-50 | extending a prefix by one element adds that element to the sum |
| Stats.SumNonNegative | src/testing/src/helper.py:177 | a sum of non-negative terms is non-negative, and zero exactly when every term is |
| Stats.SumConstant | src/testing/src/helper.py:116-121 | the sum of n copies of c is n * c |
| Potential.FromExp | src/testing/src/helper.py:131-137 | `[[1/(1+e), e/(1+e)], [e/(1+e), 1/(1+e)]]` for `e > 0` is symmetric, row-stochastic, strictly inside (0, 1), with those exact entries |
| Potential.FixedPotentialsWellFormed | src/mapper_LBP.py:126-131 | the "equal" and "biased" potentials are symmetric, row-stochastic and positive; "biased" favours equal states |
| Potential.FromExpOrdering | src/testing/src/helper.py:130-137 | a positive correlation (`e < 1`) favours equal neighbouring states, a negative one unequal states, and `e == 1` gives the uniform potential |
| Sensor.Observe | src/testing/src/uav_camera.py:125-130 | the observation is binary; a 0 cell reads 0 exactly when its draw is at most `1 - s0`, a 1 cell reads 1 exactly when its draw is at most `1 - s1` |
| Sensor.PerfectSensor | src/testing/src/uav_camera.py:126-130 | with both error rates 0 a binary cell is read as it is, for any draw in [0, 1] |
| Sensor.ObserveRow | src/mapper.py:258-263 | a row is observed cell by cell with its own draws |
| Sensor.ObserveMap | src/mapper.py:258-263 | the observation has the submap's shape, is binary, and agrees with each cell iff that cell's draw passes the flip rule |
| Pairwise.PairwisePotential | src/mapper_LBP.py:118-134 | "equal" and "biased" give the fixed matrices; otherwise the adaptive matrix of the last observation, which always exists for a 2-D observation (the uniform potential for an empty one), and a `ValueError` while the observation is still the 1-D empty array of the constructor; every result is symmetric, row-stochastic and positive |
| Prob.Normalize | src/mapper.py:178 | `v / sum(v)` sums to 1, is proportional to `v`, and is a (positive) distribution when `v` is (positive) non-negative |
| Prob.NormalizeIdempotent | src/mapper.py:199 | normalising twice is normalising once |
| Prob.ProdVecs | src/mapper.py:174 | `np.prod(vectors, axis=0)` of positive vectors is positive |
| Prob.ProdOfProbabilities | src/mapper_LBP.py:225-226 | a product of probabilities is a probability |
| Prob.ProdOfPositives | src/mapper_LBP.py:225-226 | a product of positive factors is positive |
| Prob.Complement | src/mapper_LBP.py:225 | `1 - s` elementwise |
| Prob.MessageVectorProducts | src/mapper_LBP.py:247-255 | for channel values in [0, 1] with the directional ones inside (0, 1), `prod(v)` and `prod(1 - v)` are non-negative and not both 0, so the belief is defined |
| Prob.UniformPrefixProducts | src/mapper_LBP.py:247-250 | with every directional message 0.5 the two products differ only in the belief factor |
| Prob.OccupancyOf | src/mapper_LBP.py:247-255 | `prod(v) / (prod(v) + prod(1 - v))` lies in [0, 1], which is what the assertion at lines 257-265 checks |
| Prob.Ratio | src/mapper_LBP.py:238 | `a / (a + b)` lies in [0, 1] and times `a + b` gives `a` |
| Prob.OccupancyOfUniform | src/mapper_LBP.py:247-255 | with every directional message 0.5 the belief read off is the belief channel unchanged |
| Prob.RatioOfProducts | src/mapper_LBP.py:253-255 | `c*x / (c*x + c*(1-x)) == x` |
| Helper.TruncatedSampleSet | helper.py:5-33 | one sample per complete 3x3 block, `(rows//3) * (cols//3)` of them, in row-major block order |
| Helper.BlockStep | helper.py:14-32 | appending the sample of the next block extends the samples of the blocks before it |
| Helper.CollectSampleSet | helper.py:5-33 | the nested block loops return exactly the truncated sample set |
| Helper.SampleSetsAgree | helper.py:5-33 | on a grid whose sides are multiples of 3 the truncating version and the edge-padding version (src/testing/src/helper.py:79-105) collect the same samples |
| Helper.BlockAgrees | helper.py:17-29 | inside the grid a block's sample is the same in both versions |
| Helper.PartialTermsEnds | helper.py:41-50 | the accumulated sums start at 0 and end at the vectorised sums |
| Helper.PearsonStep | helper.py:45-50 | one loop step adds the k-th cross product and squared deviations |
| Helper.PearsonCorrelationCoeff | helper.py:36-53 | the accumulating loop returns exactly the coefficient of the vectorised version, on every sample set, and 0 when there are no samples |
| Helper.PearsonOfTerms | helper.py:51-52 | the coefficient is `num / sqrt(sc * sn)`, or 0 when that root is 0 |
| Helper.AdaptiveWeights | helper.py:56-65 | `1/(1+e)` for equal states and `e/(1+e)` otherwise, with `e = exp(-p)`; the result is in (0, 1); a missing map (`[]` has no `.shape`) is an `AttributeError` |
| Helper.AdaptiveWeightsComplementary | helper.py:62-65 | the weights of equal and unequal states sum to 1, and the weight is symmetric in the two states |
| Helper.PairwiseFactor | helper.py:68-77 | "equal" gives 0.5, "biased" 0.7 for equal states and 0.3 otherwise, anything else the adaptive weight |
| Helper.PairwiseFactorIsPotentialEntry | helper.py:68-77 | the factor is symmetric in `(m_i, m_j)` and on states 0/1 equals the entry of the matching 2x2 potential |
| Helper.Normalize2dGrid | helper.py:89-99 | an empty grid is a `ValueError`; a constant one divides 0 by 0; otherwise same shape, every value in [0, 1], 0 exactly at the minimum and 1 exactly at the maximum |
| Helper.ScaleToUnit | helper.py:97 | `(v - lo) / (hi - lo)` is in [0, 1], 0 iff `v == lo`, 1 iff `v == hi` |
| Helper.Normalize2dGridMonotonic | helper.py:97 | normalising keeps the order of cells |
| Helper.InFlatten | helper.py:93-94 | every cell lies between the grid's minimum and maximum |
| Helper.GetNeighbors | helper.py:102-115 | exactly the in-bounds cells among top, bottom, left, right of `pos`, in that order, each once |
| Helper.ObservedMIds | helper.py:118-138 | with two terrains, the row-major cells from the terrain cell of the first to that of the last observed cell (errors of `pos2grid` passed on); else with a camera and a pose, the cells of its index footprint; else `TypeError` |
| Helper.NormalizeProbabilities | helper.py:141-145 | no values give no values; a zero sum of some values is an error; otherwise the result sums to 1 and each value times the old sum is the old value |
| Helper.SumScaled | helper.py:143-144 | dividing every term by `c` divides the sum by `c` |
| Helper.ChannelTotals | helper.py:154 | `P[0] + P[1]`, cell by cell, in a fresh array |
| Helper.DivideChannel | helper.py:157-158 | `P[c] /= total` changes only channel `c` |
| Helper.ShareOfTotal | helper.py:154-158 | the two shares of a nonzero total sum to 1 |
| Helper.NormalizeProbabilitiesInPlace | helper.py:148-160 | a first axis shorter than 2 is an `IndexError`; a zero total is an error and leaves `P` alone; otherwise `P[0]` and `P[1]` are divided in place by their total taken before either changed, every other channel is kept, and `P[0] + P[1] == 1` in every cell |
| TestingHelper.PaddedBlocks | src/testing/src/helper.py:89-91 | the block count of an edge-padded axis is `ceil(n / 3)` |
| TestingHelper.CollectSampleSet | src/testing/src/helper.py:79-105 | an empty grid has no samples; otherwise `ceil(rows/3) * ceil(cols/3)` samples, each the centre and the N+S+W+E sum of a block of the edge-padded grid, in row-major block order |
| TestingHelper.PaddedSamples | src/testing/src/helper.py:93-105 | one sample per listed block, in order |
| TestingHelper.SampleSetOfBinaryGrid | src/testing/src/helper.py:93-103 | on a 0/1 grid every centre is 0 or 1 and every neighbour sum is in [0, 4] |
| TestingHelper.PaddedIsBinary | src/testing/src/helper.py:91 | edge padding of a 0/1 grid is 0/1 |
| TestingHelper.Centres | src/testing/src/helper.py:109 | the centre column has one value per sample |
| TestingHelper.NeighbourSums | src/testing/src/helper.py:110 | the neighbour-sum column has one value per sample |
| TestingHelper.Deviations | src/testing/src/helper.py:116-117 | `s - mean` keeps the length |
| TestingHelper.Products | src/testing/src/helper.py:119-121 | elementwise products keep the length |
| TestingHelper.PearsonCorrelationCoeff | src/testing/src/helper.py:108-125 | no samples give 0 (the numerator and both sums of no deviations are 0); otherwise the result times `sqrt(sc * sn)` is the numerator, or 0 when that root is 0 |
| TestingHelper.SafeRatio | src/testing/src/helper.py:125 | `num / den if den != 0 else 0` |
| TestingHelper.PearsonOfConstantCentres | src/testing/src/helper.py:119-125 | when all centre values are equal the coefficient is 0 |
| TestingHelper.PearsonOfConstantNeighbourSums | src/testing/src/helper.py:119-125 | when all neighbour sums are equal the coefficient is 0 |
| TestingHelper.AdaptiveWeightsMatrix | src/testing/src/helper.py:128-138 | the potential is `FromExp(exp(-p))` for p the Pearson coefficient of the collected samples: symmetric, row-stochastic, entries strictly in (0, 1), equal diagonal; a map with no cells gives `FromExp(exp(0))`, the uniform potential when `exp(0) == 1` |
| TestingHelper.AdaptiveWeightsMatrixOrdering | src/testing/src/helper.py:128-138 | a positive correlation (`exp(-p) < 1`) makes the adaptive potential favour equal neighbouring states, a negative one (`exp(-p) > 1`) unequal states |
| TestingHelper.ObservedMIds | src/testing/src/helper.py:141-156 | without a camera or a pose a `TypeError`; with `aslist` every cell of the index footprint in row-major order, else the four bounds |
| TestingHelper.UavPositionEq | src/testing/src/helper.py:165-168 | equal exactly to a `uav_position` with the same position and altitude |
| TestingHelper.UavPositionEqIsEquivalence | src/testing/src/helper.py:165-171 | `__eq__` is reflexive, symmetric and transitive, agrees with the `__hash__` key, and is false against other types |
| TestingHelper.SquaredErrors | src/testing/src/helper.py:177 | `(a - b) ** 2` cell by cell, same shape |
| TestingHelper.ComputeMse | src/testing/src/helper.py:174-178 | a shape mismatch is a `ValueError`, an empty map is NaN |
| TestingHelper.MseZeroIffEqual | src/testing/src/helper.py:174-178 | the MSE is non-negative, and 0 exactly when the maps are equal |
| TestingHelper.MeanOfSquares | src/testing/src/helper.py:177 | the mean squared error is non-negative, and 0 iff every squared error is |
| TestingHelper.MeanOfNonNegative | src/testing/src/helper.py:177 | the mean of non-negative terms is non-negative, and 0 iff every term is |
| TestingHelper.MseIsMean | src/testing/src/helper.py:177 | a defined MSE is the mean of the flattened squared errors |
| TestingHelper.SquaredErrorsNonNegative | src/testing/src/helper.py:177 | no squared error is negative |
| TestingHelper.SquaredErrorsOfEqual | src/testing/src/helper.py:177 | equal maps have all squared errors 0 |
| TestingHelper.SquaredErrorsZero | src/testing/src/helper.py:177 | all squared errors 0 means the maps are equal |
| TestingHelper.ComputeCoverage | src/testing/src/helper.py:181-186 | a map of no area is a `ZeroDivisionError`; otherwise coverage times `x * y` is `len(ms_set) * length^2` |
| TestingHelper.CoverageIsFraction | src/testing/src/helper.py:181-186 | when the cells tile the map and every observed cell is one of them, coverage is in [0, 1] |
| TestingHelper.CellsInRectBound | src/testing/src/helper.py:184 | a set of cells of an h x w rectangle has at most h * w cells |
| TestingHelper.Threshold | src/testing/src/helper.py:201 | the estimated map is 1 exactly where `belief[..., 1] >= 0.5`, else 0, same shape |
| TestingHelper.ComputeMetrics | src/testing/src/helper.py:200-206 | the MSE of the thresholded belief and the coverage, or the first error |
| UavCamera.ClipR | src/testing/src/uav_camera.py:82-87 | `np.clip` lands in `[lo, hi]` and leaves a value inside alone |
| UavCamera.Camera.constructor | src/testing/src/uav_camera.py:11-41 | centred or corner ranges, `xy_step = min side / 16`, `h_step = xy_step / tan(fov/2)`, `h_range = (h_step, 6 h_step)` |
| UavCamera.Camera.Reset | src/testing/src/uav_camera.py:44-46 | position `(0, 0)` and altitude `h_step` |
| UavCamera.Camera.SetPosition | src/testing/src/uav_camera.py:48-49 | sets the position only |
| UavCamera.Camera.SetAltitude | src/testing/src/uav_camera.py:54-55 | sets the altitude only |
| UavCamera.Camera.ConvertMonotonic | src/testing/src/uav_camera.py:60-68 | the column index grows with x, the row index shrinks as y grows |
| UavCamera.Camera.ConvertCellCorner | src/testing/src/uav_camera.py:65-68 | the metric corner of cell (i, j) converts back to (i, j) |
| UavCamera.Camera.ConvertCellCornerCentered | src/testing/src/uav_camera.py:61-64 | the same on a centred grid |
| UavCamera.Camera.Extent | src/testing/src/uav_camera.py:74-87 | every clipped bound lies inside `x_range` / `y_range` |
| UavCamera.Camera.GetRange | src/testing/src/uav_camera.py:70-102 | `[[0,0],[0,0]]` when the clipped extent is empty in x or y; otherwise the clipped extent, or in index form `(x_min, y_min)` gives `(i_max, j_min)` and `(x_max, y_max)` gives `(i_min, j_max)` |
| UavCamera.Camera.GetRangeOrdered | src/testing/src/uav_camera.py:99-102 | for a non-negative altitude `i_min <= i_max` and `j_min <= j_max` |
| UavCamera.Camera.NonNegativeHalfWidth | src/testing/src/uav_camera.py:79-80 | the snapped half-width is non-negative |
| UavCamera.Camera.GetObservations | src/testing/src/uav_camera.py:104-140 | corners `ul=(i_min,j_min)`, `bl=(i_max,j_min)`, `ur=(i_min,j_max)`, `br=(i_max,j_max)`, and the flip-rule observation of the submap under `sigmas` or `(sigma, sigma)` |
| UavCamera.Camera.XFuture | src/testing/src/uav_camera.py:142-164 | each move applies only when its bound check holds; otherwise, and for "hover", the pose is unchanged |
| UavCamera.Camera.XFutureStaysInBounds | src/testing/src/uav_camera.py:144-161 | from a pose in range every move stays in range and changes the altitude or one planar coordinate only |
| UavCamera.Camera.PermittedActions | src/testing/src/uav_camera.py:166-184 | "hover" first, no action twice, and an action is listed iff it is "hover" or its guard (as written) holds |
| Terrain.Ceil | terrain_creation.py:13-14 | `math.ceil` bounds |
| Terrain.ArangeCount | terrain_creation.py:13-14 | `np.arange(0, stop, step)` has 0 values for `stop <= 0`, otherwise the least n with `n * step >= stop` |
| Terrain.Terrain.constructor | terrain_creation.py:12-24 | an `ij` meshgrid of cell origins, the map all 0.5, a 2 x shape probability of 0.5, ranges from 0, iterator at 0 |
| Terrain.Terrain.Pos2Grid | terrain_creation.py:38-56 | a position outside the ranges is a `ValueError`; otherwise the truncated cell clamped into `[0, shape - 1]` per axis |
| Terrain.Terrain.Pos2GridOfGrid2Pos | terrain_creation.py:48-62 | `pos2grid(grid2pos(c)) == c` for every cell of the map whose position lies in the ranges |
| Terrain.Terrain.SetMap | terrain_creation.py:64-87 | a z of the meshgrid's shape replaces only the map; a mismatch with no x/y is a `TypeError` with the map emptied; with x/y the grids and map are replaced first and a shape disagreement is then a `ValueError`; on agreement ranges and probabilities are reset |
| Terrain.Terrain.Iter | terrain_creation.py:89-91 | restarts the iterator and changes nothing else |
| Terrain.Terrain.Next | terrain_creation.py:93-101 | yields `(k // cols, k % cols)` and advances, or stops once `k >= rows * cols` |
| Terrain.Terrain.Cells | terrain_creation.py:89-101 | iterating a terrain yields every cell once, in row-major order, then stops |
| Mapper.EdgesAreNeighbours | src/mapper.py:17-22 | the edges out of a cell go exactly to its in-bounds neighbours |
| Mapper.LocalEvidence | src/mapper.py:24-42 | `[1-σ, σ]` for z=0, `[σ, 1-σ]` for z=1, `None` for any other z; both sum to 1 |
| Mapper.Evidence | src/mapper.py:106-108 | the vectorised evidence is `[1-s0, s1]` for z=0 and `[s0, 1-s1]` otherwise |
| Mapper.EvidenceIsLocalEvidence | src/mapper.py:104-108 | with `s0 = s1 = σ` the vectorised evidence is `local_evidence` |
| Mapper.GetRange | src/mapper.py:203-230 | the index form is given exactly when asked for |
| Mapper.SnappedDistance | src/mapper.py:216-217 | the snapped half-width of a non-negative distance is non-negative |
| Mapper.SnappedHalfWidth | src/mapper.py:216-217 | the snapped half-width is within half a cell of the exact one |
| Mapper.GetRangeInsideMap | src/mapper.py:219-223 | `0 <= x_min`, `x_max <= grid.x`, `0 <= y_min`, `y_max <= grid.y` |
| Mapper.GetRangeCoversPosition | src/mapper.py:212-223 | the footprint contains the UAV's position wherever it is over the map |
| Mapper.GetRangeIndexForm | src/mapper.py:224-228 | the index form is the rounded metric form, inside `[0, round(grid.x / len)]` x `[0, round(grid.y / len)]` |
| Mapper.Arange | src/mapper.py:239-244 | `np.arange(start, stop, step)`: the count of values and each value |
| Mapper.MeshgridIJ | src/mapper.py:246 | `np.meshgrid(..., indexing="ij")` shapes and entries |
| Mapper.ErrorRates | src/mapper.py:247-254 | the table entry under the rounded altitude, a `KeyError` if absent, or `(σ, σ)` without a table |
| Mapper.GetObservations | src/mapper.py:233-265 | the meshgrid of the footprint's cell origins and the observation of the submap, or the `KeyError` of the table |
| Mapper.GetObservationsFlipRule | src/mapper.py:258-263 | the observation has the submap's shape, is binary, and agrees with a cell iff its draw is at most `1 - s` for its true state's rate |
| Mapper.CellOriginsValues | src/mapper.py:239-246 | entry (a, b) of the meshgrid is the origin of cell `(i_min + a, j_min + b)` |
| Mapper.ProdIncomingIsProduct | src/mapper.py:166-174 | the fold of factors equals `np.prod` of the `incoming_messages` list: messages into `(i, j)` from every in-bounds neighbour except the receiver |
| Mapper.ListedProduct | src/mapper.py:166-174 | multiplying the listed messages is multiplying every factor |
| Mapper.FactorProductPositive | src/mapper.py:174 | positive messages have a positive product |
| Mapper.ProdIncomingPositive | src/mapper.py:174 | the incoming product of positive messages is positive |
| Mapper.FactorProductUniform | src/mapper.py:174 | uniform messages have a product with equal positive entries |
| Mapper.ProdIncomingUniform | src/mapper.py:174 | the incoming product of uniform messages has equal positive entries |
| Mapper.DotKeepsTotal | src/mapper.py:177 | `np.dot(v, psi)` with a row-stochastic `psi` keeps the total |
| Mapper.NewMessage | src/mapper.py:177-178 | the new message sums to 1, or is NaN when its total vanishes |
| Mapper.NewMessagePositive | src/mapper.py:177-178 | positive evidence, messages and potential give a defined positive message |
| Mapper.NewMessageUniform | src/mapper.py:177-178 | the uniform potential sends `[0.5, 0.5]` |
| Mapper.StepMessages | src/mapper.py:162-180 | a pass fails iff some edge's message does; otherwise the new map has the same keys, every message sums to 1, and each is computed from the old map only |
| Mapper.StepFails | src/mapper.py:164-179 | one failing edge fails the pass |
| Mapper.StepComplete | src/mapper.py:163-180 | a map holding every edge's new message is the result of the pass |
| Mapper.NoEdgeFails | src/mapper.py:164-179 | a map holding every edge's message shows that no edge fails |
| Mapper.NextIsComprehension | src/mapper.py:163-180 | such a map is the comprehension of the pass |
| Mapper.Iterate | src/mapper.py:162-180 | `k` passes keep the edge set, or give the first error |
| Mapper.IterateNext | src/mapper.py:162-180 | pass k + 1 is one step from pass k |
| Mapper.IterateErrorSticks | src/mapper.py:162-180 | a failed pass ends the propagation with its error |
| Mapper.StepPositive | src/mapper.py:162-180 | positive messages stay positive and the pass succeeds |
| Mapper.IteratePositive | src/mapper.py:162-180 | from positive messages any number of passes succeeds |
| Mapper.StepUniform | src/mapper.py:162-180 | under the uniform potential every message becomes `[0.5, 0.5]` |
| Mapper.Marginal | src/mapper.py:191-199 | the marginal sums to 1, or is NaN when its total vanishes |
| Mapper.MarginalPositive | src/mapper.py:191-199 | positive evidence and messages give a positive distribution |
| Mapper.MarginalOfUniformMessages | src/mapper.py:191-199 | with uniform messages the marginal is the normalised local evidence |
| Mapper.Wrap | src/mapper.py:111 | numpy's negative indices count from the end |
| Mapper.UpdateRates | src/mapper.py:97-104 | the table entry under the altitude (a `KeyError` if absent), or `(σ, σ)` without a table |
| Mapper.Fused | src/mapper.py:109-112 | `prior * evidence` at each index pair of the broadcast of `i_flat` and `j_flat`, with a one-element observation repeated for every pair |
| Mapper.ObservationWrites | src/mapper.py:76-118 | one write per index pair of the numpy broadcast of `i_flat` and `j_flat` (a one-element index array or observation is repeated), each in the grid and summing to 1, or the first error (`IndexError` for index arrays that do not broadcast or fall outside, `KeyError`, `ValueError` for an observation count that is neither 1 nor the number of pairs, NaN) |
| Mapper.LastWriteUnwritten | src/mapper.py:118 | a cell not written keeps its value |
| Mapper.LastWriteWritten | src/mapper.py:118 | a written cell holds its last write |
| Mapper.ObservationWritesUseLocalEvidence | src/mapper.py:97-118 | without a table, write k pairs the k-th broadcast cell with the observation numpy pairs with it (the only one when there is one) and fuses its prior with that observation's `local_evidence` |
| Mapper.ObservationWritesBroadcast | src/mapper.py:84-117 | a single reading of a two-cell column, with a two-element or one-element `j_flat`, is broadcast: the update succeeds and writes each of the two cells once |
| Mapper.OccupancyMap.constructor | src/mapper.py:7-22 | uniform `phi`; the message map holds `[0.5, 0.5]` on exactly the directed edges between in-bounds 4-neighbours |
| Mapper.OccupancyMap.UpdateObservations | src/mapper.py:65-119 | `phi` holds the last normalised fused write at each observed cell and is unchanged elsewhere; `last_observations` becomes the submap; on an error nothing changes |
| Mapper.OccupancyMap.ApplyWrites | src/mapper.py:117 | the fancy-index assignment writes the pairs in order: each cell holds its last write, and unwritten cells keep their value |
| Mapper.OccupancyMap.PropagateMessages | src/mapper.py:149-180 | `max_iterations` passes under the pairwise potential of the last observation replace the messages |
| Mapper.OccupancyMap.Passes | src/mapper.py:162-180 | the loop equals `Iterate` of the messages |
| Mapper.OccupancyMap.Step | src/mapper.py:163-180 | one pass equals `StepMessages` |
| Mapper.OccupancyMap.Collect | src/mapper.py:164-179 | the loop over edges builds every new message from the old map, or reports an edge that fails |
| Mapper.OccupancyMap.Marginalize | src/mapper.py:182-200 | a fresh N0 x N1 array of every cell's marginal, or NaN exactly when some marginal is undefined |
| MapperLBP.Indices | src/mapper_LBP.py:139-140 | `(v / grid_length).astype(int)` entry by entry |
| MapperLBP.GetIndices | src/mapper_LBP.py:136-147 | `IndexError` for a first row shorter than 2, NaN for a zero step, `ValueError` for an empty `y`; otherwise a non-empty footprint `bl_i > ul_i`, `ur_j > ul_j`. The step is read along axis 1, as for an `xy` meshgrid; on an `ij` meshgrid such as src/mapper.py:246 builds it is 0 |
| MapperLBP.GetIndicesBounds | src/mapper_LBP.py:141-146 | `ul` is the least index and `bl`/`ur`/`br` are one past the greatest, and both ends are reached |
| MapperLBP.ProductChannels | src/mapper_LBP.py:32-113 | each direction multiplies every channel but the incoming one, then the belief channel 4 |
| MapperLBP.ChannelDiscipline | src/mapper_LBP.py:33-113 | up writes 2, right 3, down 0, left 1; each direction's product omits the channel of its opposite's writes; channel 4 is never written |
| MapperLBP.Resolve | src/mapper_LBP.py:36-48 | a window resolves to a region inside the array |
| MapperLBP.ProductRegion | src/mapper_LBP.py:34-38 | `msgs[..., ul_i:bl_i, ul_j:ur_j]` resolved against the grid |
| MapperLBP.RouteFor | src/mapper_LBP.py:39-113 | a route's read region lies in the product's shape and its write region in the grid |
| MapperLBP.PlanOf | src/mapper_LBP.py:32-115 | the slicing table of a footprint: every region inside the array it indexes |
| MapperLBP.ScheduleStep | src/mapper_LBP.py:215 | after the first t + 1 directions of a pass exactly their channels are fresh |
| MapperLBP.AllFitByDirection | src/mapper_LBP.py:215-240 | all assignments fit iff each direction's does |
| MapperLBP.SourceCell | src/mapper_LBP.py:240 | the cell a written message comes from lies in the product region |
| MapperLBP.SlicesAgree | src/mapper_LBP.py:39-113 | for a footprint inside the grid, each direction's read and write regions have equal extents, so the assignment is well-formed |
| MapperLBP.RouteAgrees | src/mapper_LBP.py:240 | the route of such a footprint fits |
| MapperLBP.WriteIsShiftedFootprint | src/mapper_LBP.py:45-113 | a direction writes at exactly the footprint cells shifted one step in its direction, with the message computed at the shifted-from cell |
| MapperLBP.PlanRoutes | src/mapper_LBP.py:32-115 | the plan holds the product region and each direction's route |
| MapperLBP.NormMsg | src/mapper_LBP.py:225-238 | `msg_1 / (msg_0 + msg_1)` lies strictly in (0, 1) for a positive potential |
| MapperLBP.PotentialApplied | src/mapper_LBP.py:229-235 | a positive potential maps two non-negative weights, not both 0, to two positive ones |
| MapperLBP.NormMsgOfEqualPotential | src/mapper_LBP.py:229-238 | with the "equal" potential every message is exactly 0.5 |
| MapperLBP.Msg | src/mapper_LBP.py:211-245 | after k passes channel 4 holds the starting belief, and a directional channel is strictly inside (0, 1) |
| MapperLBP.Gathered | src/mapper_LBP.py:225-226 | the four values a direction multiplies form a message vector |
| MapperLBP.Belief | src/mapper_LBP.py:247-255 | the belief read off the five channels lies in [0, 1] |
| MapperLBP.MessageRule | src/mapper_LBP.py:240 | after a pass, a direction's write channel at a cell holds the message of its footprint neighbour behind it, or 0.5 when there is none |
| MapperLBP.MsgOutsideWrites | src/mapper_LBP.py:211-240 | outside a direction's write region its channel keeps the 0.5 of the reset |
| MapperLBP.MsgInsideWrites | src/mapper_LBP.py:240 | inside it, the next pass holds the source cell's normalised message |
| MapperLBP.ChannelsAt | src/mapper_LBP.py:225-226 | `msgs[ch, i, j]` for four channels |
| MapperLBP.HeldGathered | src/mapper_LBP.py:225-226 | an array holding k passes holds the channels each direction gathers |
| MapperLBP.EqualPotentialMessages | src/mapper_LBP.py:229-238 | with the "equal" potential every directional message stays 0.5 in every pass |
| MapperLBP.EqualPotentialBelief | src/mapper_LBP.py:247-255 | with the "equal" potential propagation writes every footprint belief back unchanged |
| MapperLBP.LikelihoodsSum | src/mapper_LBP.py:160-161 | the two likelihoods sum to 1, lie in [0, 1] for σ in [0, 1], and favour the read state for σ < 0.5 |
| MapperLBP.Posterior | src/mapper_LBP.py:169-191 | `posterior_m_one_norm` lies in [0, 1) and times `(p0 + p1 + 1e-10)` is `p1` |
| MapperLBP.UninformativeObservation | src/mapper_LBP.py:160-191 | σ = 0.5 leaves a belief b as `b / (1 + 2e-10)` |
| MapperLBP.ObservedBelief | src/mapper_LBP.py:169-199 | the written posterior lies in [0, 1), with numpy's broadcasting of a one-cell axis |
| MapperLBP.OccupancyMap.constructor | src/mapper_LBP.py:7-24 | every message of both arrays and every belief is 0.5; no observation yet |
| MapperLBP.OccupancyMap.UpdateBeliefOG | src/mapper_LBP.py:151-199 | a corner error, a failed likelihood assertion or a shape mismatch changes nothing; otherwise every footprint cell gets its Bayesian posterior and no other cell changes |
| MapperLBP.OccupancyMap.ApplyObservation | src/mapper_LBP.py:197-199 | the posterior slice is written and nothing else |
| MapperLBP.OccupancyMap.PropagateMessages | src/mapper_LBP.py:202-265 | remembers z; the potential always exists; a corner error changes no array; otherwise both arrays are reset, `max_iterations <= 0` fails at the final read, an ill-fitting direction fails in the first pass, and else `msgs` holds the passes and only footprint beliefs change, each to its [0, 1] belief |
| MapperLBP.OccupancyMap.Iterate | src/mapper_LBP.py:205-255 | the reset, the passes and the belief write of one call |
| MapperLBP.OccupancyMap.RunPasses | src/mapper_LBP.py:214-245 | the loop succeeds iff there is no pass or every direction fits, and `msgs` then holds the passes |
| MapperLBP.OccupancyMap.Reset | src/mapper_LBP.py:211-213 | both arrays are fresh, channels 0-3 and the buffer are 0.5, and channel 4 is the current belief |
| MapperLBP.OccupancyMap.Pass | src/mapper_LBP.py:215-240 | the four directions in table order, each reading `msgs` as the pass found it, fill the buffer with the next pass |
| MapperLBP.OccupancyMap.CopyMessages | src/mapper_LBP.py:245 | copying channels 0-3 advances `msgs` by one pass; channel 4 is untouched |
| MapperLBP.OccupancyMap.WriteBeliefs | src/mapper_LBP.py:247-255 | every footprint cell gets the belief of its five channels, every other cell keeps its own |
| MapperLBP.OccupancyMap.Send | src/mapper_LBP.py:217-240 | a direction succeeds iff its assignment fits; it changes only its write channel, to the next pass's messages |
| MapperLBP.OccupancyMap.Write | src/mapper_LBP.py:240 | `msgs_buffer[write_slice] = norm_msg_1[read_slice]`, nothing else |

## Left out

- Transcendentals and floating point: `exp`, `sqrt` and `tan` are parameters, and numbers are exact reals. The 10-decimal `np.round` of `adaptive_weights_matrix` (src/testing/src/helper.py:138) is not modelled. Neither is `round(..., 1)` / `round(..., 2)` in the action guards of `x_future` and `permitted_actions`.
- UavCamera.Camera.XFuture: the "up" guard compares unrounded values, because the rounding to one decimal is a float-display detail.
- UavCamera.Camera.PermittedActions: the order of the actions after "hover" is left unspecified, as the iteration order of a Python set is. Guards are modelled as written: "front" is guarded on `position[0]` although `x_future` moves it along y.
- NaN and infinity: a numpy division that would produce NaN or inf is an error result (`NotANumber`). The model does not carry NaN values forward into arrays.
- Mapper.OccupancyMap.PropagateMessages: a pass that would produce NaN leaves the messages as they were, where numpy would carry NaN values on.
- Helper.NormalizeProbabilitiesInPlace: a zero total leaves `P` unchanged, where numpy would write NaN or inf.
- Randomness: the draws of `rng.random(submap.shape)` are a `draws` parameter. `sample_binary_observations` and the `mexgen` path of `update_belief_OG` (src/mapper_LBP.py:162-164, 270-301) are not modelled. Neither is `sample_event_matrix` (helper.py:163-173).
- `compute_entropy` (src/testing/src/helper.py:189-197) needs `log2`. TestingHelper.ComputeMetrics returns only the MSE and the coverage.
- Mapper.GetRange: `tan(30 / 180 * 3.14)` is the parameter `tanHalfFov`.
- UavCamera.Camera.GetRange: `tan` of half the field of view is the constructor parameter `tanHalfFov`.
- `original_update_observations` and `set_last_observations` (src/mapper.py:121-147) are not modelled. The first has no caller in the modelled code; the second is a one-line field assignment.
- Trivial getters are not modelled: `get_belief` (src/mapper_LBP.py:267-268), `get_hstep` and `get_x` of the camera, and `__len__`, `get_grid`, `get_map`, `get_ranges` and `copy` of the terrain.
- The unused `phi` field of src/mapper_LBP.py and its commented-out code (lines 303-384).
- `id_converter` (helper.py:80-86) is inlined into Helper.ObservedMIds as `pos2grid(grid2pos(...))`. `helper.uav_position` and `point` are plain records.
- Both mappers import `adaptive_weights_matrix` from a `src/helper.py`, which is not part of this model. The adaptive potential is the one of `src/testing/src/helper.py`, the only version in the modelled files.
- Plotting, `FastLogger` (file I/O), random terrain synthesis (FFT, Cholesky, pickle cache) and the driver scripts are not modelled.
- The camera's `rng` and `fov` fields are not kept. The observation draws are a parameter, and `fov` is only used through `tanHalfFov`.
