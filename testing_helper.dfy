/** The vectorised helpers of the test harness: block sampling with edge
    padding, the Pearson coefficient of the samples, the adaptive pairwise
    potential, footprint cells, position equality and the error metrics. */
module TestingHelper {
  import opened Common
  import opened Grids
  import opened Records
  import opened Stats
  import opened Potential
  import opened Prob
  import UavCamera

  /** The value of a 3x3 block's centre cell and the sum of its four Von
      Neumann neighbours. */
  type Sample = (int, int)

  /** The value at (r, c) of the grid padded at its far edges by repeating
      its last row and column (`np.pad(..., mode="edge")`). */
  function Padded(g: seq<seq<int>>, r: nat, c: nat): int
    requires IsRect(g) && Rows(g) > 0 && Cols(g) > 0
  {
    g[Min(r, Rows(g) - 1)][Min(c, Cols(g) - 1)]
  }

  /** The sample of block `b` of the padded grid: its centre and the sum of
      the cells north, south, west and east of it. */
  function PaddedSample(g: seq<seq<int>>, b: Cell): Sample
    requires IsRect(g) && Rows(g) > 0 && Cols(g) > 0
    requires b.i >= 0 && b.j >= 0
  {
    var ci, cj := 3 * b.i + 1, 3 * b.j + 1;
    (Padded(g, ci, cj),
     Padded(g, ci - 1, cj) + Padded(g, ci + 1, cj) + Padded(g, ci, cj - 1) + Padded(g, ci, cj + 1))
  }

  /** The number of 3-cell windows along an axis of `n` cells once it is
      padded to a multiple of 3: `ceil(n / 3)`. */
  function PaddedBlocks(n: nat): (b: nat)
    ensures n <= 3 * b < n + 3
  {
    (n + (3 - n % 3) % 3) / 3
  }

  /** `collect_sample_set`: one sample per 3x3 block of the edge-padded
      grid, blocks in row-major order; an empty grid has no samples. */
  function CollectSampleSet(g: seq<seq<int>>): (d: seq<Sample>)
    requires IsRect(g)
    ensures Rows(g) == 0 || Cols(g) == 0 ==> d == []
    ensures Rows(g) > 0 && Cols(g) > 0 ==>
      var blocks := RowMajor(0, PaddedBlocks(Rows(g)), 0, PaddedBlocks(Cols(g)));
      && |d| == |blocks|
      && forall k :: 0 <= k < |d| ==> blocks[k].i >= 0 && blocks[k].j >= 0 && d[k] == PaddedSample(g, blocks[k])
  {
    if Rows(g) == 0 || Cols(g) == 0 then []
    else
      var blocks := RowMajor(0, PaddedBlocks(Rows(g)), 0, PaddedBlocks(Cols(g)));
      RowMajorSound(0, PaddedBlocks(Rows(g)), 0, PaddedBlocks(Cols(g)));
      assert forall k :: 0 <= k < |blocks| ==> blocks[k] in blocks;
      PaddedSamples(g, blocks)
  }

  /** The sample of each of `blocks`, in order. */
  function PaddedSamples(g: seq<seq<int>>, blocks: seq<Cell>): (d: seq<Sample>)
    requires IsRect(g) && Rows(g) > 0 && Cols(g) > 0
    requires forall k :: 0 <= k < |blocks| ==> blocks[k].i >= 0 && blocks[k].j >= 0
    ensures |d| == |blocks|
    ensures forall k :: 0 <= k < |d| ==> d[k] == PaddedSample(g, blocks[k])
  {
    if |blocks| == 0 then []
    else PaddedSamples(g, blocks[..|blocks| - 1]) + [PaddedSample(g, blocks[|blocks| - 1])]
  }

  predicate IsBinary(g: seq<seq<int>>) {
    forall r, c :: 0 <= r < |g| && 0 <= c < |g[r]| ==> g[r][c] == 0 || g[r][c] == 1
  }

  /** On a 0/1 grid every centre is 0 or 1 and every neighbour sum lies in
      [0, 4]. */
  lemma {:induction false} SampleSetOfBinaryGrid(g: seq<seq<int>>)
    requires IsRect(g) && IsBinary(g)
    ensures forall k :: 0 <= k < |CollectSampleSet(g)| ==>
      var (c, n) := CollectSampleSet(g)[k];
      (c == 0 || c == 1) && 0 <= n <= 4
  {
    var d := CollectSampleSet(g);
    forall k | 0 <= k < |d| ensures (d[k].0 == 0 || d[k].0 == 1) && 0 <= d[k].1 <= 4 {
      var blocks := RowMajor(0, PaddedBlocks(Rows(g)), 0, PaddedBlocks(Cols(g)));
      var b := blocks[k];
      var ci, cj := 3 * b.i + 1, 3 * b.j + 1;
      PaddedIsBinary(g, ci, cj);
      PaddedIsBinary(g, ci - 1, cj);
      PaddedIsBinary(g, ci + 1, cj);
      PaddedIsBinary(g, ci, cj - 1);
      PaddedIsBinary(g, ci, cj + 1);
    }
  }

  lemma PaddedIsBinary(g: seq<seq<int>>, r: nat, c: nat)
    requires IsRect(g) && Rows(g) > 0 && Cols(g) > 0 && IsBinary(g)
    ensures Padded(g, r, c) == 0 || Padded(g, r, c) == 1
  {
    assert |g[Min(r, Rows(g) - 1)]| == Cols(g);
  }

  function Centres(d: seq<Sample>): (s: seq<real>)
    ensures |s| == |d|
  {
    seq(|d|, k requires 0 <= k < |d| => d[k].0 as real)
  }

  function NeighbourSums(d: seq<Sample>): (s: seq<real>)
    ensures |s| == |d|
  {
    seq(|d|, k requires 0 <= k < |d| => d[k].1 as real)
  }

  /** `s - mean`, elementwise. */
  function Deviations(s: seq<real>, m: real): (r: seq<real>)
    ensures |r| == |s|
  {
    seq(|s|, k requires 0 <= k < |s| => s[k] - m)
  }

  /** `a * b`, elementwise. */
  function Products(a: seq<real>, b: seq<real>): (r: seq<real>)
    requires |a| == |b|
    ensures |r| == |a|
  {
    seq(|a|, k requires 0 <= k < |a| => a[k] * b[k])
  }

  /** The numerator and the two sums of squared deviations of the Pearson
      coefficient of the centres against the neighbour sums. */
  function PearsonTerms(d: seq<Sample>): (t: (real, real, real))
    requires |d| > 0
  {
    var cDiff := Deviations(Centres(d), Mean(Centres(d)));
    var nDiff := Deviations(NeighbourSums(d), Mean(NeighbourSums(d)));
    (Sum(Products(cDiff, nDiff)), Sum(Products(cDiff, cDiff)), Sum(Products(nDiff, nDiff)))
  }

  /** `pearson_correlation_coeff`: the numerator over `sqrt` of the product
      of the squared-deviation sums, or 0 when that denominator is 0. With no
      samples the means are NaN, but the deviations are empty, so the
      numerator and both sums are 0 and the result is 0. */
  function PearsonCorrelationCoeff(d: seq<Sample>, sqrt: real -> real): (r: real)
    ensures |d| == 0 ==> r == 0.0
    ensures |d| > 0 ==> IsPearsonRatio(r, PearsonTerms(d), sqrt)
  {
    if |d| == 0 then 0.0
    else
      var t := PearsonTerms(d);
      var q := SafeRatio(t.0, sqrt(t.1 * t.2));
      assert IsPearsonRatio(q, t, sqrt);
      q
  }

  /** `p * sqrt(sc * sn) == num`, or `p == 0` when that root is 0. */
  predicate IsPearsonRatio(p: real, t: (real, real, real), sqrt: real -> real) {
    var den := sqrt(t.1 * t.2);
    (den == 0.0 ==> p == 0.0) && (den != 0.0 ==> p * den == t.0)
  }

  /** `num / den if den != 0 else 0`. */
  function SafeRatio(num: real, den: real): (r: real)
    ensures den == 0.0 ==> r == 0.0
    ensures den != 0.0 ==> r * den == num
  {
    if den != 0.0 then num / den else 0.0
  }

  /** When every centre value is the same, the centres do not vary and the
      coefficient is 0 (for a `sqrt` with `sqrt(0) == 0`). */
  lemma {:induction false} PearsonOfConstantCentres(d: seq<Sample>, sqrt: real -> real)
    requires |d| > 0
    requires forall k :: 0 <= k < |d| ==> d[k].0 == d[0].0
    requires sqrt(0.0) == 0.0
    ensures PearsonCorrelationCoeff(d, sqrt) == 0.0
  {
    var cs := Centres(d);
    var c := d[0].0 as real;
    MeanOfConstant(cs, c);
    var cDiff := Deviations(cs, Mean(cs));
    var sq := Products(cDiff, cDiff);
    SumConstant(sq, 0.0);
    var t := PearsonTerms(d);
    assert t.1 == 0.0;
    assert t.1 * t.2 == 0.0;
  }

  /** The same when every neighbour sum is the same. */
  lemma {:induction false} PearsonOfConstantNeighbourSums(d: seq<Sample>, sqrt: real -> real)
    requires |d| > 0
    requires forall k :: 0 <= k < |d| ==> d[k].1 == d[0].1
    requires sqrt(0.0) == 0.0
    ensures PearsonCorrelationCoeff(d, sqrt) == 0.0
  {
    var ns := NeighbourSums(d);
    var c := d[0].1 as real;
    MeanOfConstant(ns, c);
    var nDiff := Deviations(ns, Mean(ns));
    var sq := Products(nDiff, nDiff);
    SumConstant(sq, 0.0);
    var t := PearsonTerms(d);
    assert t.2 == 0.0;
    assert t.1 * t.2 == 0.0;
  }

  /** The mean of n copies of c is c. */
  lemma MeanOfConstant(s: seq<real>, c: real)
    requires |s| > 0 && forall k :: 0 <= k < |s| ==> s[k] == c
    ensures Mean(s) == c
  {
    SumConstant(s, c);
    var m, n := Mean(s), |s| as real;
    assert m * n == n * c;
    assert (m - c) * n == 0.0;
  }

  /** `adaptive_weights_matrix`: the potential `FromExp(exp(-p))` of the
      Pearson coefficient p of the grid's samples, for an `exp` that is
      positive everywhere. It is symmetric, row-stochastic and strictly
      inside (0, 1). A grid with no cells has no samples, p is 0 and the
      potential is the uniform one. */
  function AdaptiveWeightsMatrix(obsMap: seq<seq<int>>, sqrt: real -> real, exp: real -> real): (r: Psi)
    requires IsRect(obsMap)
    requires forall t :: exp(t) > 0.0
    ensures IsSymmetric(r) && IsRowStochastic(r) && IsPositive(r)
    ensures r.p00 < 1.0 && r.p01 < 1.0 && r.p00 == r.p11
    ensures Rows(obsMap) == 0 || Cols(obsMap) == 0 ==> r == FromExp(exp(0.0))
    ensures (Rows(obsMap) == 0 || Cols(obsMap) == 0) && exp(0.0) == 1.0 ==> r == EqualPsi
    ensures r == FromExp(exp(-PearsonCorrelationCoeff(CollectSampleSet(obsMap), sqrt)))
  {
    var p := PearsonCorrelationCoeff(CollectSampleSet(obsMap), sqrt);
    if Rows(obsMap) == 0 || Cols(obsMap) == 0 then
      assert p == 0.0 && -p == 0.0;
      FromExpOrdering(exp(0.0));
      FromExp(exp(-p))
    else
      FromExp(exp(-p))
  }

  /** A positive correlation (`exp(-p) < 1`) makes the adaptive potential
      favour equal neighbouring states, a negative one unequal states. */
  lemma AdaptiveWeightsMatrixOrdering(obsMap: seq<seq<int>>, sqrt: real -> real, exp: real -> real)
    requires IsRect(obsMap)
    requires forall t :: exp(t) > 0.0
    ensures var e, r := exp(-PearsonCorrelationCoeff(CollectSampleSet(obsMap), sqrt)), AdaptiveWeightsMatrix(obsMap, sqrt, exp);
      && (e < 1.0 ==> r.p00 > r.p01)
      && (e > 1.0 ==> r.p00 < r.p01)
  {
    FromExpOrdering(exp(-PearsonCorrelationCoeff(CollectSampleSet(obsMap), sqrt)));
  }

  /** An actual result of `observed_m_ids`: the cells, or the index bounds
      when not asked for a list. */
  datatype ObservedIds =
    | CellList(cells: seq<Cell>)
    | IndexBounds(iMin: int, iMax: int, jMin: int, jMax: int)

  /** `observed_m_ids`: the cells of the index footprint of `uav` at
      `uavPos`, every `(i, j)` of `[i_min, i_max) x [j_min, j_max)` once, in
      row-major order; without a camera or a position it is a `TypeError`. */
  method ObservedMIds(uav: Option<UavCamera.Camera>, uavPos: Option<UavPosition>, aslist: bool)
    returns (r: Result<ObservedIds>)
    requires uav.Some? ==> uav.value.xRange.0 <= uav.value.xRange.1 && uav.value.yRange.0 <= uav.value.yRange.1
    ensures uav.None? || uavPos.None? <==> r == Err(TypeError)
    ensures uav.Some? && uavPos.Some? ==>
      var f := uav.value.GetRange(Some(uavPos.value.position), Some(uavPos.value.altitude), true);
      && (!aslist ==> r == Ok(IndexBounds(f.iMin, f.iMax, f.jMin, f.jMax)))
      && (aslist ==> r == Ok(CellList(RowMajor(f.iMin, f.iMax, f.jMin, f.jMax))))
      && (aslist ==> forall c :: c in r.value.cells <==> InRect(c, f.iMin, f.iMax, f.jMin, f.jMax))
  {
    if uav.None? || uavPos.None? {
      return Err(TypeError);
    }
    var f := uav.value.GetRange(Some(uavPos.value.position), Some(uavPos.value.altitude), true);
    if aslist {
      var cells := EnumerateCells(f.iMin, f.iMax, f.jMin, f.jMax);
      RowMajorCells(f.iMin, f.iMax, f.jMin, f.jMax);
      return Ok(CellList(cells));
    }
    return Ok(IndexBounds(f.iMin, f.iMax, f.jMin, f.jMax));
  }

  /** The value `uav_position.__eq__` is compared against. */
  datatype PyValue = PositionValue(p: UavPosition) | OtherValue

  /** `uav_position.__eq__`: equal to another `uav_position` with the same
      position and altitude, and to nothing else. */
  function UavPositionEq(self: UavPosition, other: PyValue): (b: bool)
    ensures b <==> other == PositionValue(self)
  {
    if other.PositionValue? then
      self.position == other.p.position && self.altitude == other.p.altitude
    else false
  }

  /** `uav_position.__hash__` hashes this key. */
  function UavPositionKey(u: UavPosition): ((real, real), real) { (u.position, u.altitude) }

  /** `__eq__` is an equivalence on positions and agrees with the hash key. */
  lemma {:induction false} UavPositionEqIsEquivalence(a: UavPosition, b: UavPosition, c: UavPosition)
    ensures UavPositionEq(a, PositionValue(a))
    ensures UavPositionEq(a, PositionValue(b)) ==> UavPositionEq(b, PositionValue(a))
    ensures UavPositionEq(a, PositionValue(b)) && UavPositionEq(b, PositionValue(c)) ==> UavPositionEq(a, PositionValue(c))
    ensures UavPositionEq(a, PositionValue(b)) <==> UavPositionKey(a) == UavPositionKey(b)
    ensures !UavPositionEq(a, OtherValue)
  {
  }

  /** The squared differences of two grids of the same shape. */
  function SquaredErrors(a: seq<seq<real>>, b: seq<seq<real>>): (e: seq<seq<real>>)
    requires SameShape(a, b)
    ensures |e| == |a| && IsRect(e) && SameShape(e, a)
    ensures forall r, c :: 0 <= r < |a| && 0 <= c < |a[r]| ==> e[r][c] == (a[r][c] - b[r][c]) * (a[r][c] - b[r][c])
  {
    var e := seq(|a|, r requires 0 <= r < |a| =>
      seq(|a[r]|, c requires 0 <= c < |a[r]| => (a[r][c] - b[r][c]) * (a[r][c] - b[r][c])));
    assert forall r :: 0 <= r < |e| ==> |e[r]| == Cols(a);
    e
  }

  /** `compute_mse`: the mean squared difference of two maps of the same
      shape; different shapes are a `ValueError`, and the mean of no cells is
      NaN. */
  function ComputeMse(groundTruth: seq<seq<real>>, estimated: seq<seq<real>>): (r: Result<real>)
    requires IsRect(groundTruth) && IsRect(estimated)
    ensures (Rows(groundTruth), Cols(groundTruth)) != (Rows(estimated), Cols(estimated)) <==> r == Err(ValueError)
    ensures r == Err(NotANumber) <==> SameShape(groundTruth, estimated) && Rows(groundTruth) * Cols(groundTruth) == 0
  {
    if (Rows(groundTruth), Cols(groundTruth)) != (Rows(estimated), Cols(estimated)) then Err(ValueError)
    else
      var e := SquaredErrors(groundTruth, estimated);
      FlattenLength(e);
      if |Flatten(e)| == 0 then Err(NotANumber) else Ok(Mean(Flatten(e)))
  }

  /** The mean squared error is non-negative, and zero exactly when the two
      maps are equal. */
  lemma {:induction false} MseZeroIffEqual(groundTruth: seq<seq<real>>, estimated: seq<seq<real>>)
    requires IsRect(groundTruth) && IsRect(estimated)
    requires ComputeMse(groundTruth, estimated).Ok?
    ensures ComputeMse(groundTruth, estimated).value >= 0.0
    ensures ComputeMse(groundTruth, estimated).value == 0.0 <==> groundTruth == estimated
  {
    MseIsMean(groundTruth, estimated);
    var flat := Flatten(SquaredErrors(groundTruth, estimated));
    MeanOfSquares(groundTruth, estimated);
    if groundTruth == estimated {
      SquaredErrorsOfEqual(groundTruth, estimated);
    }
    if Mean(flat) == 0.0 {
      SquaredErrorsZero(groundTruth, estimated);
    }
  }

  /** The mean of the squared errors is non-negative, and zero exactly when
      every squared error is. */
  lemma {:induction false} MeanOfSquares(a: seq<seq<real>>, b: seq<seq<real>>)
    requires SameShape(a, b) && |Flatten(SquaredErrors(a, b))| > 0
    ensures Mean(Flatten(SquaredErrors(a, b))) >= 0.0
    ensures Mean(Flatten(SquaredErrors(a, b))) == 0.0 <==>
              forall k :: 0 <= k < |Flatten(SquaredErrors(a, b))| ==> Flatten(SquaredErrors(a, b))[k] == 0.0
  {
    SquaredErrorsNonNegative(a, b);
    MeanOfNonNegative(Flatten(SquaredErrors(a, b)));
  }

  lemma {:induction false} MeanOfNonNegative(s: seq<real>)
    requires |s| > 0 && forall k :: 0 <= k < |s| ==> 0.0 <= s[k]
    ensures Mean(s) >= 0.0
    ensures Mean(s) == 0.0 <==> forall k :: 0 <= k < |s| ==> s[k] == 0.0
  {
    SumNonNegative(s);
    MeanSign(Mean(s), Sum(s), |s|);
  }

  lemma MseIsMean(groundTruth: seq<seq<real>>, estimated: seq<seq<real>>)
    requires IsRect(groundTruth) && IsRect(estimated)
    requires ComputeMse(groundTruth, estimated).Ok?
    ensures SameShape(groundTruth, estimated)
    ensures |Flatten(SquaredErrors(groundTruth, estimated))| > 0
    ensures ComputeMse(groundTruth, estimated).value == Mean(Flatten(SquaredErrors(groundTruth, estimated)))
  {
  }

  lemma SquaredErrorsNonNegative(a: seq<seq<real>>, b: seq<seq<real>>)
    requires SameShape(a, b)
    ensures forall k :: 0 <= k < |Flatten(SquaredErrors(a, b))| ==> 0.0 <= Flatten(SquaredErrors(a, b))[k]
  {
    var e := SquaredErrors(a, b);
    var flat := Flatten(e);
    forall k | 0 <= k < |flat| ensures 0.0 <= flat[k] {
      FlattenMembership(e, flat[k]);
      var r, c :| 0 <= r < |e| && 0 <= c < |e[r]| && e[r][c] == flat[k];
      Square(a[r][c] - b[r][c]);
    }
  }

  lemma SquaredErrorsOfEqual(a: seq<seq<real>>, b: seq<seq<real>>)
    requires SameShape(a, b) && a == b
    ensures forall k :: 0 <= k < |Flatten(SquaredErrors(a, b))| ==> Flatten(SquaredErrors(a, b))[k] == 0.0
  {
    var e := SquaredErrors(a, b);
    var flat := Flatten(e);
    forall k | 0 <= k < |flat| ensures flat[k] == 0.0 {
      FlattenMembership(e, flat[k]);
      var r, c :| 0 <= r < |e| && 0 <= c < |e[r]| && e[r][c] == flat[k];
    }
  }

  lemma SquaredErrorsZero(a: seq<seq<real>>, b: seq<seq<real>>)
    requires SameShape(a, b)
    requires forall k :: 0 <= k < |Flatten(SquaredErrors(a, b))| ==> Flatten(SquaredErrors(a, b))[k] == 0.0
    ensures a == b
  {
    var e := SquaredErrors(a, b);
    var flat := Flatten(e);
    forall r, c | 0 <= r < |a| && 0 <= c < |a[r]| ensures a[r][c] == b[r][c] {
      assert |e[r]| == |a[r]|;
      FlattenMembership(e, e[r][c]);
      var k :| 0 <= k < |flat| && flat[k] == e[r][c];
      ZeroSquare(a[r][c] - b[r][c], e[r][c]);
    }
    forall r | 0 <= r < |a| ensures a[r] == b[r] {
      assert |a[r]| == |b[r]|;
    }
  }

  lemma Square(x: real)
    ensures x * x >= 0.0
  {
  }

  lemma ZeroSquare(x: real, e: real)
    requires e == x * x && e == 0.0
    ensures x == 0.0
  {
    if x != 0.0 {
      SquareOverSelf(x, e);
    }
  }

  lemma SquareOverSelf(x: real, e: real)
    requires e == x * x && x != 0.0
    ensures e / x == x
  {
  }

  lemma MeanSign(m: real, s: real, n: nat)
    requires n > 0 && m * n as real == s
    ensures s >= 0.0 ==> m >= 0.0
    ensures m == 0.0 <==> s == 0.0
  {
  }

  /** `compute_coverage`: the observed area `|msSet| * length^2` over the
      map area `x * y`; a map of no area is a `ZeroDivisionError`. */
  function ComputeCoverage(msSet: set<Cell>, grid: GridInfo): (r: Result<real>)
    ensures grid.x * grid.y == 0.0 <==> r == Err(ZeroDivisionError)
    ensures r.Ok? ==> r.value * (grid.x * grid.y) == |msSet| as real * (grid.length * grid.length)
  {
    var cellArea := grid.length * grid.length;
    var observedArea := |msSet| as real * cellArea;
    var totalArea := grid.x * grid.y;
    if totalArea == 0.0 then Err(ZeroDivisionError) else Ok(observedArea / totalArea)
  }

  /** When the map is tiled exactly by its cells and every observed cell is
      one of them, the coverage is a fraction in [0, 1]. */
  lemma {:induction false} CoverageIsFraction(msSet: set<Cell>, grid: GridInfo)
    requires grid.length > 0.0
    requires grid.shape.0 > 0 && grid.shape.1 > 0
    requires grid.x == grid.shape.0 as real * grid.length && grid.y == grid.shape.1 as real * grid.length
    requires forall c :: c in msSet ==> InRect(c, 0, grid.shape.0, 0, grid.shape.1)
    ensures ComputeCoverage(msSet, grid).Ok?
    ensures 0.0 <= ComputeCoverage(msSet, grid).value <= 1.0
  {
    var h, w := grid.shape.0, grid.shape.1;
    CellsInRectBound(msSet, h, w);
    var len := grid.length;
    var area := grid.x * grid.y;
    assert area == (h * w) as real * (len * len);
    PositiveMul((h * w) as real, len * len);
    var r := ComputeCoverage(msSet, grid).value;
    assert r * area == |msSet| as real * (len * len);
    FractionBound(r, |msSet| as real, (h * w) as real, len * len);
  }

  lemma PositiveMul(a: real, b: real)
    requires a > 0.0 && b > 0.0
    ensures a * b > 0.0
  {
  }

  lemma FractionBound(r: real, k: real, n: real, a: real)
    requires 0.0 <= k <= n && a > 0.0 && n > 0.0
    requires r * (n * a) == k * a
    ensures 0.0 <= r <= 1.0
  {
    assert r * n == k;
  }

  /** A set of cells of the `h` by `w` rectangle has at most `h * w` cells. */
  lemma CellsInRectBound(s: set<Cell>, h: int, w: int)
    requires h > 0 && w > 0
    requires forall c :: c in s ==> InRect(c, 0, h, 0, w)
    ensures |s| <= h * w
  {
    var all := RowMajor(0, h, 0, w);
    RowMajorCells(0, h, 0, w);
    var t := set c | c in all;
    assert s <= t;
    SubsetCard(s, t);
    SeqSetCard(all);
  }

  lemma SubsetCard<T>(a: set<T>, b: set<T>)
    requires a <= b
    ensures |a| <= |b|
  {
    assert b == a + (b - a);
    assert a * (b - a) == {};
  }

  lemma {:induction false} SeqSetCard<T>(s: seq<T>)
    ensures |set x | x in s| <= |s|
  {
    if |s| > 0 {
      var init := s[..|s| - 1];
      SeqSetCard(init);
      assert (set x | x in s) == (set x | x in init) + {s[|s| - 1]};
    }
  }

  /** `belief[..., 1] >= 0.5` as a 0/1 map. */
  function Threshold(belief: seq<seq<Vec2>>): (m: seq<seq<real>>)
    requires IsRect(belief)
    ensures IsRect(m) && |m| == |belief| && SameShape(m, belief)
    ensures forall r, c :: 0 <= r < |belief| && 0 <= c < |belief[r]| ==>
      m[r][c] == (if belief[r][c].p1 >= 0.5 then 1.0 else 0.0)
  {
    var m := seq(|belief|, r requires 0 <= r < |belief| =>
      seq(|belief[r]|, c requires 0 <= c < |belief[r]| => if belief[r][c].p1 >= 0.5 then 1.0 else 0.0));
    assert forall r :: 0 <= r < |m| ==> |m[r]| == Cols(belief);
    m
  }

  /** `compute_metrics` without the entropy: the squared error of the
      thresholded belief against the ground truth, and the coverage. */
  function ComputeMetrics(groundTruth: seq<seq<real>>, belief: seq<seq<Vec2>>, msSet: set<Cell>, grid: GridInfo)
    : (r: Result<(real, real)>)
    requires IsRect(groundTruth) && IsRect(belief)
    ensures ComputeMse(groundTruth, Threshold(belief)).Err? ==> r == Err(ComputeMse(groundTruth, Threshold(belief)).error)
    ensures ComputeMse(groundTruth, Threshold(belief)).Ok? && ComputeCoverage(msSet, grid).Err? ==> r == Err(ZeroDivisionError)
    ensures r.Ok? ==> r.value == (ComputeMse(groundTruth, Threshold(belief)).value, ComputeCoverage(msSet, grid).value)
  {
    var estimated := Threshold(belief);
    var mse := ComputeMse(groundTruth, estimated);
    if mse.Err? then Err(mse.error)
    else
      var coverage := ComputeCoverage(msSet, grid);
      if coverage.Err? then Err(coverage.error) else Ok((mse.value, coverage.value))
  }
}
