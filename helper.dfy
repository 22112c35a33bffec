/** The loop-based helpers of the repository root: block sampling that
    drops incomplete blocks, the Pearson coefficient accumulated in a loop,
    the pairwise factor, grid normalisation, neighbour enumeration, the cells
    of a footprint, and probability normalisation. */
module Helper {
  import opened Common
  import opened Grids
  import opened Stats
  import opened Records
  import opened Potential
  import TestingHelper
  import UavCamera
  import Terrain

  type Sample = TestingHelper.Sample

  lemma BlockInside(b: int, n: nat)
    requires 0 <= b < n / 3
    ensures 3 * b + 2 < n
  {
  }

  /** The sample of the complete block `b`: its centre and the sum of the
      centre's north, south, west and east cells. */
  function BlockSample(g: seq<seq<int>>, b: Cell): Sample
    requires IsRect(g) && 0 <= b.i < Rows(g) / 3 && 0 <= b.j < Cols(g) / 3
  {
    BlockInside(b.i, Rows(g));
    BlockInside(b.j, Cols(g));
    var ci, cj := 3 * b.i + 1, 3 * b.j + 1;
    (g[ci][cj], g[ci - 1][cj] + g[ci + 1][cj] + g[ci][cj - 1] + g[ci][cj + 1])
  }

  /** The sample of the `k`-th complete block in row-major block order. */
  function BlockSampleAt(g: seq<seq<int>>, k: int): Sample
    requires IsRect(g) && 0 <= k < (Rows(g) / 3) * (Cols(g) / 3)
  {
    var nbr, nbc := Rows(g) / 3, Cols(g) / 3;
    BlockIndexBounds(k, nbr, nbc);
    BlockSample(g, Cell(k / nbc, k % nbc))
  }

  lemma BlockIndexBounds(k: int, h: int, w: int)
    requires 0 <= k < h * w && h >= 0 && w >= 0
    ensures w > 0 && 0 <= k / w < h && 0 <= k % w < w
  {
    if w > 0 {
      DivBelow(k, w, h);
    }
  }

  /** Block `(bi, bj)` is the `bi * nbc + bj`-th block. */
  lemma BlockIndexOf(bi: int, bj: int, nbr: int, nbc: int)
    requires 0 <= bi < nbr && 0 <= bj < nbc
    ensures 0 <= bi * nbc + bj < nbr * nbc
    ensures (bi * nbc + bj) / nbc == bi && (bi * nbc + bj) % nbc == bj
  {
    DivModOf(bi, bj, nbc);
    MulMonotonicInt(nbc, bi + 1, nbr);
  }

  /** The samples of the complete 3x3 blocks in row-major block order;
      trailing rows and columns that do not fill a block are ignored. */
  function TruncatedSampleSet(g: seq<seq<int>>): (d: seq<Sample>)
    requires IsRect(g)
    ensures |d| == (Rows(g) / 3) * (Cols(g) / 3)
  {
    var nbr, nbc := Rows(g) / 3, Cols(g) / 3;
    seq(nbr * nbc, k requires 0 <= k < nbr * nbc => BlockSampleAt(g, k))
  }

  /** Appending the sample of block `(bi, bj)` to the samples of the blocks
      before it gives the samples up to and including it. */
  lemma {:induction false} BlockStep(g: seq<seq<int>>, d: seq<Sample>, bi: int, bj: int)
    requires IsRect(g) && 0 <= bi < Rows(g) / 3 && 0 <= bj < Cols(g) / 3
    requires |d| == bi * (Cols(g) / 3) + bj && d <= TruncatedSampleSet(g)
    ensures 3 * bi + 2 < Rows(g) && 3 * bj + 2 < Cols(g)
    ensures d + [BlockSample(g, Cell(bi, bj))] <= TruncatedSampleSet(g)
  {
    BlockInside(bi, Rows(g));
    BlockInside(bj, Cols(g));
    var all := TruncatedSampleSet(g);
    BlockIndexOf(bi, bj, Rows(g) / 3, Cols(g) / 3);
    var k := |d|;
    assert all[k] == BlockSample(g, Cell(bi, bj));
    assert all[..k] == d;
    assert all[..k + 1] == d + [all[k]];
  }

  /** The row count after a full row of blocks. */
  lemma RowDone(bi: int, nbc: int, nbr: int)
    requires 0 <= bi < nbr && nbc >= 0
    ensures bi * nbc + nbc == (bi + 1) * nbc <= nbr * nbc
  {
    MulMonotonicInt(nbc, bi + 1, nbr);
  }

  /** `collect_sample_set`: the nested block loops append one sample per
      complete block. */
  method CollectSampleSet(g: seq<seq<int>>) returns (d: seq<Sample>)
    requires IsRect(g)
    ensures d == TruncatedSampleSet(g)
  {
    var rows, cols := Rows(g), Cols(g);
    var nbr, nbc := rows / 3, cols / 3;
    d := [];
    var bi := 0;
    while bi < nbr
      invariant 0 <= bi <= nbr
      invariant |d| == bi * nbc
      invariant d <= TruncatedSampleSet(g)
    {
      var bj := 0;
      RowDone(bi, nbc, nbr);
      while bj < nbc
        invariant 0 <= bj <= nbc
        invariant |d| == bi * nbc + bj
        invariant d <= TruncatedSampleSet(g)
      {
        BlockStep(g, d, bi, bj);
        var ci, cj := bi * 3 + 1, bj * 3 + 1;
        var c := g[ci][cj];
        var n := g[ci - 1][cj] + g[ci + 1][cj] + g[ci][cj - 1] + g[ci][cj + 1];
        d := d + [(c, n)];
        bj := bj + 1;
      }
      bi := bi + 1;
    }
    assert |d| == |TruncatedSampleSet(g)|;
  }

  /** On a grid whose sides are multiples of 3 no block is incomplete, so
      truncating and edge padding collect the same samples. */
  lemma {:induction false} SampleSetsAgree(g: seq<seq<int>>)
    requires IsRect(g)
    requires Rows(g) % 3 == 0 && Cols(g) % 3 == 0
    ensures TruncatedSampleSet(g) == TestingHelper.CollectSampleSet(g)
  {
    var a, b := TruncatedSampleSet(g), TestingHelper.CollectSampleSet(g);
    var nbr, nbc := Rows(g) / 3, Cols(g) / 3;
    if Rows(g) > 0 && Cols(g) > 0 {
      assert TestingHelper.PaddedBlocks(Rows(g)) == nbr;
      assert TestingHelper.PaddedBlocks(Cols(g)) == nbc;
      var blocks := RowMajor(0, nbr, 0, nbc);
      forall k | 0 <= k < |a| ensures a[k] == b[k] {
        BlockIndexBounds(k, nbr, nbc);
        assert blocks[k] == Cell(k / nbc, k % nbc);
        BlockAgrees(g, Cell(k / nbc, k % nbc));
      }
    } else {
      assert nbr * nbc == 0;
    }
  }

  /** Inside the grid, edge padding is never reached. */
  lemma BlockAgrees(g: seq<seq<int>>, b: Cell)
    requires IsRect(g) && 0 <= b.i < Rows(g) / 3 && 0 <= b.j < Cols(g) / 3
    ensures BlockSample(g, b) == TestingHelper.PaddedSample(g, b)
  {
    BlockInside(b.i, Rows(g));
    BlockInside(b.j, Cols(g));
  }

  /** The three sums of the Pearson coefficient over the first `k` samples,
      for the given means. */
  function PartialTerms(d: seq<Sample>, avgC: real, avgN: real, k: nat): (real, real, real)
    requires k <= |d|
  {
    var cDiff := TestingHelper.Deviations(TestingHelper.Centres(d), avgC);
    var nDiff := TestingHelper.Deviations(TestingHelper.NeighbourSums(d), avgN);
    (Sum(TestingHelper.Products(cDiff, nDiff)[..k]),
     Sum(TestingHelper.Products(cDiff, cDiff)[..k]),
     Sum(TestingHelper.Products(nDiff, nDiff)[..k]))
  }

  /** With no samples read the sums are 0, after all of them they are the
      sums of the vectorised version. */
  lemma {:induction false} PartialTermsEnds(d: seq<Sample>, avgC: real, avgN: real)
    ensures PartialTerms(d, avgC, avgN, 0) == (0.0, 0.0, 0.0)
    ensures |d| > 0 && avgC == Mean(TestingHelper.Centres(d)) && avgN == Mean(TestingHelper.NeighbourSums(d)) ==>
      PartialTerms(d, avgC, avgN, |d|) == TestingHelper.PearsonTerms(d)
  {
    var cDiff := TestingHelper.Deviations(TestingHelper.Centres(d), avgC);
    var nDiff := TestingHelper.Deviations(TestingHelper.NeighbourSums(d), avgN);
    assert TestingHelper.Products(cDiff, nDiff)[..|d|] == TestingHelper.Products(cDiff, nDiff);
    assert TestingHelper.Products(cDiff, cDiff)[..|d|] == TestingHelper.Products(cDiff, cDiff);
    assert TestingHelper.Products(nDiff, nDiff)[..|d|] == TestingHelper.Products(nDiff, nDiff);
  }

  /** One step of the accumulating loop adds the `k`-th terms. */
  lemma {:induction false} PearsonStep(d: seq<Sample>, avgC: real, avgN: real, k: nat, cd: real, nd: real)
    requires k < |d| && cd == d[k].0 as real - avgC && nd == d[k].1 as real - avgN
    ensures
      var t, t' := PartialTerms(d, avgC, avgN, k), PartialTerms(d, avgC, avgN, k + 1);
      t' == (t.0 + nd * cd, t.1 + cd * cd, t.2 + nd * nd)
  {
    var cDiff := TestingHelper.Deviations(TestingHelper.Centres(d), avgC);
    var nDiff := TestingHelper.Deviations(TestingHelper.NeighbourSums(d), avgN);
    SumPrefix(TestingHelper.Products(cDiff, nDiff), k);
    SumPrefix(TestingHelper.Products(cDiff, cDiff), k);
    SumPrefix(TestingHelper.Products(nDiff, nDiff), k);
    assert cDiff[k] == cd && nDiff[k] == nd;
    assert TestingHelper.Products(cDiff, nDiff)[k] == cd * nd;
    assert TestingHelper.Products(cDiff, cDiff)[k] == cd * cd;
    assert TestingHelper.Products(nDiff, nDiff)[k] == nd * nd;
  }

  /** `pearson_correlation_coeff`: the means first, then one loop that
      accumulates the cross products and both sums of squared deviations. */
  method PearsonCorrelationCoeff(d: seq<Sample>, sqrt: real -> real) returns (p: real)
    ensures p == TestingHelper.PearsonCorrelationCoeff(d, sqrt)
    ensures |d| == 0 ==> p == 0.0
  {
    // np.mean of no values is NaN; the loop below then never reads it
    var avgC := if |d| > 0 then Mean(TestingHelper.Centres(d)) else 0.0;
    var avgN := if |d| > 0 then Mean(TestingHelper.NeighbourSums(d)) else 0.0;
    var numerator, sumSqCentralDiff, sumSqNeighborsDiff := 0.0, 0.0, 0.0;
    PartialTermsEnds(d, avgC, avgN);
    assert |d| == 0 ==> PartialTerms(d, avgC, avgN, |d|) == (0.0, 0.0, 0.0);
    var k := 0;
    while k < |d|
      invariant 0 <= k <= |d|
      invariant PartialTerms(d, avgC, avgN, k) == (numerator, sumSqCentralDiff, sumSqNeighborsDiff)
    {
      var cd := d[k].0 as real - avgC;
      var nd := d[k].1 as real - avgN;
      PearsonStep(d, avgC, avgN, k, cd, nd);
      numerator := numerator + nd * cd;
      sumSqCentralDiff := sumSqCentralDiff + cd * cd;
      sumSqNeighborsDiff := sumSqNeighborsDiff + nd * nd;
      k := k + 1;
    }
    var denominator := sqrt(sumSqCentralDiff * sumSqNeighborsDiff);
    p := if denominator != 0.0 then numerator / denominator else 0.0;
    PearsonOfTerms(d, sqrt, numerator, sumSqCentralDiff, sumSqNeighborsDiff);
  }

  /** The coefficient is determined by the three sums. */
  lemma PearsonOfTerms(d: seq<Sample>, sqrt: real -> real, num: real, sc: real, sn: real)
    requires |d| == 0 ==> num == 0.0 && sc == 0.0 && sn == 0.0
    requires |d| > 0 ==> TestingHelper.PearsonTerms(d) == (num, sc, sn)
    ensures sqrt(sc * sn) == 0.0 ==> TestingHelper.PearsonCorrelationCoeff(d, sqrt) == 0.0
    ensures sqrt(sc * sn) != 0.0 ==> TestingHelper.PearsonCorrelationCoeff(d, sqrt) == num / sqrt(sc * sn)
  {
    if |d| > 0 {
      var t := TestingHelper.PearsonTerms(d);
      assert t.0 == num && t.1 == sc && t.2 == sn;
      MulCongruent(t.1, t.2, sc, sn);
      var v := TestingHelper.PearsonCorrelationCoeff(d, sqrt);
      RatioFacts(v, t, sqrt);
      var den := sqrt(sc * sn);
      ApplyCongruent(sqrt, t.1 * t.2, sc * sn);
      assert den == 0.0 ==> v == 0.0;
      assert den != 0.0 ==> v == num / den;
    }
  }

  lemma MulCongruent(a: real, b: real, c: real, e: real)
    requires a == c && b == e
    ensures a * b == c * e
  {
  }

  lemma ApplyCongruent(f: real -> real, a: real, b: real)
    requires a == b
    ensures f(a) == f(b)
  {
  }

  lemma RatioFacts(p: real, t: (real, real, real), sqrt: real -> real)
    requires TestingHelper.IsPearsonRatio(p, t, sqrt)
    ensures sqrt(t.1 * t.2) == 0.0 ==> p == 0.0
    ensures sqrt(t.1 * t.2) != 0.0 ==> p == t.0 / sqrt(t.1 * t.2)
  {
  }

  /** `adaptive_weights(m_i, m_j, obs_map)`: `1/(1+e)` for equal states and
      `e/(1+e)` otherwise, for `e = exp(-p)` and p the coefficient of the
      complete-block samples; `None` is the default argument `[]`, a list
      without `.shape`. */
  function AdaptiveWeights(mi: int, mj: int, obsMap: Option<seq<seq<int>>>, sqrt: real -> real, exp: real -> real)
    : (r: Result<real>)
    requires obsMap.Some? ==> IsRect(obsMap.value)
    requires forall t :: exp(t) > 0.0
    ensures obsMap.None? <==> r == Err(AttributeError)
    ensures r.Ok? ==> 0.0 < r.value < 1.0
    ensures r.Ok? ==>
      var psi := FromExp(exp(-TestingHelper.PearsonCorrelationCoeff(TruncatedSampleSet(obsMap.value), sqrt)));
      r.value == if mi == mj then psi.p00 else psi.p01
  {
    if obsMap.None? then Err(AttributeError)
    else
      var d := TruncatedSampleSet(obsMap.value);
      var p := TestingHelper.PearsonCorrelationCoeff(d, sqrt);
      var e := exp(-p);
      var psi := FromExp(e);
      assert psi.p00 == 1.0 / (1.0 + e) && psi.p01 == e / (1.0 + e);
      if mi == mj then Ok(1.0 / (1.0 + e)) else Ok(e / (1.0 + e))
  }

  /** The weight of equal states and the weight of unequal states add up
      to 1, and the weights are symmetric in the two states. */
  lemma {:induction false} AdaptiveWeightsComplementary(mi: int, mj: int, obsMap: seq<seq<int>>,
                                                       sqrt: real -> real, exp: real -> real)
    requires IsRect(obsMap)
    requires forall t :: exp(t) > 0.0
    requires mi != mj
    ensures AdaptiveWeights(mi, mi, Some(obsMap), sqrt, exp).value
          + AdaptiveWeights(mi, mj, Some(obsMap), sqrt, exp).value == 1.0
    ensures AdaptiveWeights(mi, mj, Some(obsMap), sqrt, exp) == AdaptiveWeights(mj, mi, Some(obsMap), sqrt, exp)
  {
    var psi := FromExp(exp(-TestingHelper.PearsonCorrelationCoeff(TruncatedSampleSet(obsMap), sqrt)));
    assert IsRowStochastic(psi);
  }

  /** `pairwise_factor_(m_i, m_j, obs_map, type)`. */
  function PairwiseFactor(mi: int, mj: int, obsMap: Option<seq<seq<int>>>, factorType: string,
                          sqrt: real -> real, exp: real -> real): (r: Result<real>)
    requires obsMap.Some? ==> IsRect(obsMap.value)
    requires forall t :: exp(t) > 0.0
    ensures factorType == "equal" ==> r == Ok(0.5)
    ensures factorType == "biased" ==> r == Ok(if mi == mj then 0.7 else 0.3)
    ensures factorType != "equal" && factorType != "biased" ==> r == AdaptiveWeights(mi, mj, obsMap, sqrt, exp)
  {
    if factorType == "equal" then Ok(0.5)
    else if factorType == "biased" then (if mi == mj then Ok(0.7) else Ok(0.3))
    else AdaptiveWeights(mi, mj, obsMap, sqrt, exp)
  }

  /** The factor is symmetric in the two states, and on the states 0 and 1
      it is the entry of the matching 2x2 potential. */
  lemma {:induction false} PairwiseFactorIsPotentialEntry(mi: int, mj: int, obsMap: seq<seq<int>>, factorType: string,
                                                         sqrt: real -> real, exp: real -> real)
    requires IsRect(obsMap)
    requires forall t :: exp(t) > 0.0
    ensures PairwiseFactor(mi, mj, Some(obsMap), factorType, sqrt, exp)
         == PairwiseFactor(mj, mi, Some(obsMap), factorType, sqrt, exp)
    ensures 0 <= mi <= 1 && 0 <= mj <= 1 ==>
      var psi := if factorType == "equal" then EqualPsi
                 else if factorType == "biased" then BiasedPsi
                 else FromExp(exp(-TestingHelper.PearsonCorrelationCoeff(TruncatedSampleSet(obsMap), sqrt)));
      PairwiseFactor(mi, mj, Some(obsMap), factorType, sqrt, exp) == Ok(Entry(psi, mi, mj))
  {
    if factorType != "equal" && factorType != "biased" && mi != mj {
      AdaptiveWeightsComplementary(mi, mj, obsMap, sqrt, exp);
    }
  }

  /** `normalize_2d_grid`: `(grid - min) / (max - min)`; an empty grid has no
      minimum (`ValueError`), and a constant one divides 0 by 0. */
  function Normalize2dGrid(g: seq<seq<real>>): (r: Result<seq<seq<real>>>)
    requires IsRect(g)
    ensures |Flatten(g)| == 0 <==> r == Err(ValueError)
    ensures |Flatten(g)| > 0 ==> (r == Err(NotANumber) <==> MinOf(Flatten(g)) == MaxOf(Flatten(g)))
    ensures r.Ok? ==> SameShape(r.value, g)
    ensures r.Ok? ==> forall a, b :: 0 <= a < |g| && 0 <= b < |g[a]| ==>
      && 0.0 <= r.value[a][b] <= 1.0
      && (r.value[a][b] == 0.0 <==> g[a][b] == MinOf(Flatten(g)))
      && (r.value[a][b] == 1.0 <==> g[a][b] == MaxOf(Flatten(g)))
  {
    var flat := Flatten(g);
    if |flat| == 0 then Err(ValueError)
    else
      var lo, hi := MinOf(flat), MaxOf(flat);
      if lo == hi then Err(NotANumber)
      else
        InFlatten(g);
        var n := seq(|g|, a requires 0 <= a < |g| =>
          seq(|g[a]|, b requires 0 <= b < |g[a]| => ScaleToUnit(g[a][b], lo, hi)));
        assert forall a :: 0 <= a < |n| ==> |n[a]| == Cols(g);
        Ok(n)
  }

  /** `(v - lo) / (hi - lo)` for `lo <= v <= hi`, `lo < hi`: in [0, 1], 0
      exactly at `lo` and 1 exactly at `hi`. */
  function ScaleToUnit(v: real, lo: real, hi: real): (r: real)
    requires lo <= v <= hi && lo < hi
    ensures 0.0 <= r <= 1.0
    ensures r == 0.0 <==> v == lo
    ensures r == 1.0 <==> v == hi
    ensures r * (hi - lo) == v - lo
  {
    var q := (v - lo) / (hi - lo);
    assert q * (hi - lo) == v - lo;
    UnitBounds(q, v - lo, hi - lo);
    q
  }

  lemma UnitBounds(q: real, a: real, b: real)
    requires b > 0.0 && 0.0 <= a <= b && q * b == a
    ensures 0.0 <= q <= 1.0
    ensures q == 0.0 <==> a == 0.0
    ensures q == 1.0 <==> a == b
  {
  }

  /** Normalising keeps the order of the cells. */
  lemma {:induction false} Normalize2dGridMonotonic(g: seq<seq<real>>, a: int, b: int, a': int, b': int)
    requires IsRect(g) && Normalize2dGrid(g).Ok?
    requires 0 <= a < |g| && 0 <= b < |g[a]| && 0 <= a' < |g| && 0 <= b' < |g[a']|
    requires g[a][b] <= g[a'][b']
    ensures Normalize2dGrid(g).value[a][b] <= Normalize2dGrid(g).value[a'][b']
  {
    var flat := Flatten(g);
    var lo, hi := MinOf(flat), MaxOf(flat);
    InFlatten(g);
    var r := Normalize2dGrid(g).value;
    assert r[a][b] == ScaleToUnit(g[a][b], lo, hi);
    assert r[a'][b'] == ScaleToUnit(g[a'][b'], lo, hi);
    ScaleMonotonic(g[a][b], g[a'][b'], lo, hi);
  }

  lemma ScaleMonotonic(v: real, w: real, lo: real, hi: real)
    requires lo <= v <= w <= hi && lo < hi
    ensures ScaleToUnit(v, lo, hi) <= ScaleToUnit(w, lo, hi)
  {
    var p, q := ScaleToUnit(v, lo, hi), ScaleToUnit(w, lo, hi);
    assert p * (hi - lo) <= q * (hi - lo);
  }

  /** Every cell of a grid lies between the minimum and the maximum of its
      flattening. */
  lemma InFlatten(g: seq<seq<real>>)
    requires |Flatten(g)| > 0
    ensures forall a, b :: 0 <= a < |g| && 0 <= b < |g[a]| ==>
      MinOf(Flatten(g)) <= g[a][b] <= MaxOf(Flatten(g))
  {
    forall a, b | 0 <= a < |g| && 0 <= b < |g[a]|
      ensures MinOf(Flatten(g)) <= g[a][b] <= MaxOf(Flatten(g))
    {
      FlattenMembership(g, g[a][b]);
      var k :| 0 <= k < |Flatten(g)| && Flatten(g)[k] == g[a][b];
    }
  }

  /** `get_neighbors(map, pos)`: the cells among top, bottom, left and right
      of `pos` that lie inside the map, in that order. */
  function GetNeighbors<T>(m: seq<seq<T>>, pos: Cell): (r: seq<Cell>)
    ensures forall n :: n in r <==>
      n in FourNeighbours(pos) && 0 <= n.i < |m| && 0 <= n.j < (if |m| > 0 then |m[0]| else 0)
    ensures forall a, b :: 0 <= a < b < |r| ==> Rank(pos, r[a]) < Rank(pos, r[b])
  {
    var rows := |m|;
    var cols := if rows > 0 then |m[0]| else 0;
    InBoundNeighboursOrdered(rows, cols, pos);
    InBoundNeighbours(rows, cols, pos)
  }

  /** `observed_m_ids`: the cells of a footprint in row-major order. With two
      terrains, the footprint runs from the cell of `mTerrain` holding the
      first cell of `newZ` up to, but not including, the one holding the
      last cell of `newZ`; otherwise it is the camera's index footprint. */
  method ObservedMIds(uav: Option<UavCamera.Camera>, uavPos: Option<UavPosition>,
                      newZ: Option<Terrain.Terrain>, mTerrain: Option<Terrain.Terrain>)
    returns (r: Result<seq<Cell>>)
    requires uav.Some? ==> uav.value.xRange.0 <= uav.value.xRange.1 && uav.value.yRange.0 <= uav.value.yRange.1
    ensures newZ.Some? && mTerrain.Some? ==>
      var lo := mTerrain.value.Pos2Grid(newZ.value.Grid2Pos((0, 0)));
      && (lo.Err? ==> r == Err(lo.error))
      && (lo.Ok? && newZ.value.mapData.None? ==> r == Err(IndexError))
      && (lo.Ok? && newZ.value.mapData.Some? ==>
            var m := newZ.value.mapData.value;
            var hi := mTerrain.value.Pos2Grid(newZ.value.Grid2Pos((Rows(m) - 1, Cols(m) - 1)));
            && (hi.Err? ==> r == Err(hi.error))
            && (hi.Ok? ==> r == Ok(RowMajor(lo.value.0, hi.value.0, lo.value.1, hi.value.1))))
    ensures !(newZ.Some? && mTerrain.Some?) && uav.Some? && uavPos.Some? ==>
      var f := uav.value.GetRange(Some(uavPos.value.position), Some(uavPos.value.altitude), true);
      r == Ok(RowMajor(f.iMin, f.iMax, f.jMin, f.jMax))
    ensures !(newZ.Some? && mTerrain.Some?) && !(uav.Some? && uavPos.Some?) ==> r == Err(TypeError)
  {
    var iMin, iMax, jMin, jMax;
    if newZ.Some? && mTerrain.Some? {
      var lo := mTerrain.value.Pos2Grid(newZ.value.Grid2Pos((0, 0)));
      if lo.Err? {
        return Err(lo.error);
      }
      if newZ.value.mapData.None? {
        return Err(IndexError);
      }
      var m := newZ.value.mapData.value;
      var hi := mTerrain.value.Pos2Grid(newZ.value.Grid2Pos((Rows(m) - 1, Cols(m) - 1)));
      if hi.Err? {
        return Err(hi.error);
      }
      iMin, jMin := lo.value.0, lo.value.1;
      iMax, jMax := hi.value.0, hi.value.1;
    } else if uav.Some? && uavPos.Some? {
      var f := uav.value.GetRange(Some(uavPos.value.position), Some(uavPos.value.altitude), true);
      iMin, iMax, jMin, jMax := f.iMin, f.iMax, f.jMin, f.jMax;
    } else {
      return Err(TypeError);
    }
    var cells := EnumerateCells(iMin, iMax, jMin, jMax);
    return Ok(cells);
  }

  /** `normalize_probabilities`: the values over their sum; a zero sum of
      some values divides by zero, while no values at all give no values. */
  function NormalizeProbabilities(p: seq<real>): (r: Result<seq<real>>)
    ensures r.Err? <==> |p| > 0 && Sum(p) == 0.0
    ensures r.Err? ==> r.error == NotANumber
    ensures |p| == 0 ==> r == Ok([])
    ensures r.Ok? ==> |r.value| == |p|
    ensures r.Ok? && |p| > 0 ==> Sum(r.value) == 1.0
    ensures r.Ok? && |p| > 0 ==> forall k :: 0 <= k < |p| ==> r.value[k] * Sum(p) == p[k]
  {
    var s := Sum(p);
    if |p| == 0 then Ok([])
    else if s == 0.0 then Err(NotANumber)
    else
      var q := seq(|p|, k requires 0 <= k < |p| => p[k] / s);
      SumScaled(p, q, s);
      assert Sum(p) / s == 1.0;
      Ok(q)
  }

  /** Dividing every term by `c` divides the sum by `c`. */
  lemma {:induction false} SumScaled(p: seq<real>, q: seq<real>, c: real)
    requires c != 0.0 && |q| == |p|
    requires forall k :: 0 <= k < |p| ==> q[k] == p[k] / c
    ensures Sum(q) == Sum(p) / c
  {
    if |p| > 0 {
      var n := |p| - 1;
      SumScaled(p[..n], q[..n], c);
      assert Sum(q) == Sum(q[..n]) + q[n];
      assert Sum(p) == Sum(p[..n]) + p[n];
      DivAdd(Sum(p[..n]), p[n], c);
    }
  }

  lemma DivAdd(a: real, b: real, c: real)
    requires c != 0.0
    ensures a / c + b / c == (a + b) / c
  {
  }

  /** `P[0, :, :] + P[1, :, :]` as a fresh array. */
  method ChannelTotals(P: array3<real>) returns (total: array2<real>)
    requires P.Length0 >= 2
    ensures fresh(total) && total.Length0 == P.Length1 && total.Length1 == P.Length2
    ensures forall i, j :: 0 <= i < P.Length1 && 0 <= j < P.Length2 ==> total[i, j] == P[0, i, j] + P[1, i, j]
  {
    total := new real[P.Length1, P.Length2];
    forall i, j | 0 <= i < P.Length1 && 0 <= j < P.Length2 {
      total[i, j] := P[0, i, j] + P[1, i, j];
    }
  }

  /** `P[c, :, :] /= total`, leaving every other channel as it is. */
  method DivideChannel(P: array3<real>, c: nat, total: array2<real>)
    requires c < P.Length0 && total.Length0 == P.Length1 && total.Length1 == P.Length2
    requires forall i, j :: 0 <= i < P.Length1 && 0 <= j < P.Length2 ==> total[i, j] != 0.0
    modifies P
    ensures forall k, i, j :: 0 <= k < P.Length0 && 0 <= i < P.Length1 && 0 <= j < P.Length2 ==>
      P[k, i, j] == if k == c then old(P[k, i, j]) / old(total[i, j]) else old(P[k, i, j])
    ensures unchanged(total)
  {
    forall i, j | 0 <= i < P.Length1 && 0 <= j < P.Length2 {
      P[c, i, j] := P[c, i, j] / total[i, j];
    }
  }

  /** The shares of two values in their nonzero total add up to 1. */
  lemma ShareOfTotal(a: real, b: real, t: real, p: real, q: real)
    requires t == a + b && t != 0.0 && p == a / t && q == b / t
    ensures p + q == 1.0
  {
    DivAdd(a, b, t);
  }

  /** `normalize_probabilities_(P)`: divides `P[0]` and `P[1]` in place by
      their cell-wise total, computed before either is changed, so that the
      two add up to 1 in every cell. A first axis shorter than 2 has no
      `P[1]` (`IndexError`); a zero total divides by zero. */
  method NormalizeProbabilitiesInPlace(P: array3<real>) returns (err: Option<Error>)
    modifies P
    ensures P.Length0 < 2 ==> err == Some(IndexError)
    ensures P.Length0 >= 2 ==>
      (err == Some(NotANumber) <==>
         exists i, j :: 0 <= i < P.Length1 && 0 <= j < P.Length2 && old(P[0, i, j] + P[1, i, j]) == 0.0)
    ensures err.Some? ==> unchanged(P)
    ensures err.None? ==> forall c, i, j :: 0 <= c < P.Length0 && 0 <= i < P.Length1 && 0 <= j < P.Length2 ==>
      P[c, i, j] == (if c < 2 then old(P[c, i, j]) / old(P[0, i, j] + P[1, i, j]) else old(P[c, i, j]))
    ensures err.None? ==> forall i, j :: 0 <= i < P.Length1 && 0 <= j < P.Length2 ==> P[0, i, j] + P[1, i, j] == 1.0
  {
    if P.Length0 < 2 {
      return Some(IndexError);
    }
    var total := ChannelTotals(P);
    if exists i, j :: 0 <= i < P.Length1 && 0 <= j < P.Length2 && total[i, j] == 0.0 {
      return Some(NotANumber);
    }
    DivideChannel(P, 0, total);
    DivideChannel(P, 1, total);
    forall i, j | 0 <= i < P.Length1 && 0 <= j < P.Length2 ensures P[0, i, j] + P[1, i, j] == 1.0 {
      ShareOfTotal(old(P[0, i, j]), old(P[1, i, j]), total[i, j], P[0, i, j], P[1, i, j]);
    }
    return None;
  }
}
