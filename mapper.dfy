/** The full-grid belief propagation map: messages on every directed edge
    between 4-neighbouring cells, local evidence fused with the prior at the
    observed cells, synchronous message passing and per-cell marginals; and
    the footprint and observation functions that go with it. */
module Mapper {
  import opened Common
  import opened Grids
  import opened Prob
  import opened Potential
  import opened Records
  import Sensor
  import Pairwise
  import Terrain
  import UavCamera

  /** A directed edge `(from, to)` between two 4-neighbouring cells. */
  type Edge = (Cell, Cell)

  /** `b` is one of the four cells above, below, left and right of `a`. */
  predicate Adjacent(a: Cell, b: Cell) {
    || (b.i == a.i - 1 && b.j == a.j)
    || (b.i == a.i + 1 && b.j == a.j)
    || (b.i == a.i && b.j == a.j - 1)
    || (b.i == a.i && b.j == a.j + 1)
  }

  /** `e` is a directed edge of the `n.0` x `n.1` grid. */
  predicate IsEdge(n: (nat, nat), e: Edge) {
    InRect(e.0, 0, n.0, 0, n.1) && InRect(e.1, 0, n.0, 0, n.1) && Adjacent(e.0, e.1)
  }

  /** The edges out of a cell are the ones to its in-bound neighbours. */
  lemma {:induction false} EdgesAreNeighbours(n: (nat, nat), e: Edge)
    ensures IsEdge(n, e) <==> InRect(e.0, 0, n.0, 0, n.1) && e.1 in InBoundNeighbours(n.0, n.1, e.0)
  {
    var four := FourNeighbours(e.0);
    assert Adjacent(e.0, e.1) <==> e.1 in four by {
      if Adjacent(e.0, e.1) {
        assert e.1 == four[0] || e.1 == four[1] || e.1 == four[2] || e.1 == four[3];
      }
    }
  }

  /** `local_evidence(z, x)` for the error `sigma` of the altitude of `x`:
      `[1 - sigma, sigma]` for z = 0, `[sigma, 1 - sigma]` for z = 1, and
      nothing (Python's implicit `None`) for any other z. */
  function LocalEvidence(z: int, sigma: real): (r: Option<Vec2>)
    ensures r.Some? <==> z == 0 || z == 1
    ensures r.Some? ==> Total(r.value) == 1.0
    ensures r.Some? && 0.0 <= sigma <= 1.0 ==> IsDistribution(r.value)
    // the state other than the observed one gets the error probability
    ensures z == 0 ==> r.value.p1 == sigma
    ensures z == 1 ==> r.value.p0 == sigma
  {
    if z == 0 then Some(Vec2(1.0 - sigma, sigma))
    else if z == 1 then Some(Vec2(sigma, 1.0 - sigma))
    else None
  }

  /** The vectorised evidence of `update_observations`: `[1 - s0, s1]` for
      z = 0 and `[s0, 1 - s1]` for every other z. */
  function Evidence(z: int, s0: real, s1: real): (r: Vec2)
    ensures z == 0 ==> r.p0 + s0 == 1.0 && r.p1 == s1
    ensures z != 0 ==> r.p0 == s0 && r.p1 + s1 == 1.0
  {
    Vec2(if z == 0 then 1.0 - s0 else s0, if z == 0 then s1 else 1.0 - s1)
  }

  /** With one error rate for both states the vectorised evidence is the
      per-cell local evidence of a binary observation. */
  lemma {:induction false} EvidenceIsLocalEvidence(z: int, sigma: real)
    requires z == 0 || z == 1
    ensures LocalEvidence(z, sigma) == Some(Evidence(z, sigma, sigma))
  {
  }

  /** `get_range(uav_pos, grid, index_form)` with `tanHalfFov` the tangent
      of half the 60-degree field of view: the half-width snapped to a whole
      number of cells (Python `round`), the extent clipped into the map,
      and in index form each bound rounded to a cell boundary. */
  function GetRange(uavPos: UavPosition, grid: Grid, tanHalfFov: real, indexForm: bool): (r: UavCamera.Footprint)
    ensures indexForm <==> r.Indices?
  {
    var len := grid.length;
    var dist := SnappedDistance(uavPos.altitude * tanHalfFov, len);
    var c := ClippedExtent(uavPos.position, dist, grid);
    if indexForm then
      UavCamera.Indices(RoundHalfEven(c.xMin / len), RoundHalfEven(c.xMax / len),
                        RoundHalfEven(c.yMin / len), RoundHalfEven(c.yMax / len))
    else
      c
  }

  /** `round(d / length) * length`: a distance snapped to whole cells. */
  function SnappedDistance(d: real, len: real): (s: real)
    requires len > 0.0
    ensures d >= 0.0 ==> s >= 0.0
  {
    SnapNonNegative(d, len);
    RoundHalfEven(d / len) as real * len
  }

  lemma SnapNonNegative(d: real, len: real)
    requires len > 0.0
    ensures d >= 0.0 ==> RoundHalfEven(d / len) as real * len >= 0.0
  {
    if d >= 0.0 {
      UavCamera.DivMonotonic(0.0, d, len);
      RoundMonotonic(0.0, d / len);
      RoundOfInt(0);
      Prob.MulNonNegative(RoundHalfEven(d / len) as real, len);
    }
  }

  /** The square of half-width `dist` around `pos`, clipped into the map. */
  function ClippedExtent(pos: (real, real), dist: real, grid: Grid): (c: UavCamera.Footprint)
    ensures c.Coords?
  {
    UavCamera.Coords(MaxR(pos.0 - dist, 0.0), MinR(pos.0 + dist, grid.x),
                     MaxR(pos.1 - dist, 0.0), MinR(pos.1 + dist, grid.y))
  }

  /** The snapped half-width is within half a cell of the exact one. */
  lemma {:induction false} SnappedHalfWidth(d: real, len: real)
    requires len > 0.0
    ensures d - len / 2.0 <= SnappedDistance(d, len) <= d + len / 2.0
  {
    var q := d / len;
    var n := RoundHalfEven(q);
    assert q * len == d;
    SnapBounds(q, n as real, len, d);
  }

  lemma SnapBounds(q: real, n: real, len: real, d: real)
    requires len > 0.0 && n - 0.5 <= q <= n + 0.5 && q * len == d
    ensures d - len / 2.0 <= n * len
    ensures n * len <= d + len / 2.0
  {
    var below, above := q - (n - 0.5), (n + 0.5) - q;
    assert below * len >= 0.0;
    assert above * len >= 0.0;
  }

  /** The metric footprint lies inside the map, `[0, grid.x] x [0,
      grid.y]`. */
  lemma {:induction false} GetRangeInsideMap(uavPos: UavPosition, grid: Grid, tanHalfFov: real)
    ensures var c := GetRange(uavPos, grid, tanHalfFov, false);
      0.0 <= c.xMin && c.xMax <= grid.x && 0.0 <= c.yMin && c.yMax <= grid.y
  {
  }

  /** With a non-negative half-width, the footprint contains the UAV's
      position in every axis in which the UAV is above the map. */
  lemma {:induction false} GetRangeCoversPosition(uavPos: UavPosition, grid: Grid, tanHalfFov: real)
    requires uavPos.altitude * tanHalfFov >= 0.0
    ensures var c := GetRange(uavPos, grid, tanHalfFov, false);
      0.0 <= uavPos.position.0 <= grid.x ==> c.xMin <= uavPos.position.0 <= c.xMax
    ensures var c := GetRange(uavPos, grid, tanHalfFov, false);
      0.0 <= uavPos.position.1 <= grid.y ==> c.yMin <= uavPos.position.1 <= c.yMax
  {
    var dist := SnappedDistance(uavPos.altitude * tanHalfFov, grid.length);
    ClipContains(uavPos.position.0, dist, 0.0, grid.x);
    ClipContains(uavPos.position.1, dist, 0.0, grid.y);
  }

  lemma ClipContains(p: real, d: real, lo: real, hi: real)
    requires d >= 0.0
    ensures lo <= p <= hi ==> MaxR(p - d, lo) <= p <= MinR(p + d, hi)
  {
  }

  /** The index form is the metric form rounded to cell boundaries, inside
      `[0, round(grid.x / len)] x [0, round(grid.y / len)]`. */
  lemma {:induction false} GetRangeIndexForm(uavPos: UavPosition, grid: Grid, tanHalfFov: real)
    ensures var c, f := GetRange(uavPos, grid, tanHalfFov, false), GetRange(uavPos, grid, tanHalfFov, true);
      && f.iMin == RoundHalfEven(c.xMin / grid.length) && f.iMax == RoundHalfEven(c.xMax / grid.length)
      && f.jMin == RoundHalfEven(c.yMin / grid.length) && f.jMax == RoundHalfEven(c.yMax / grid.length)
    ensures var f := GetRange(uavPos, grid, tanHalfFov, true);
      && 0 <= f.iMin && f.iMax <= RoundHalfEven(grid.x / grid.length)
      && 0 <= f.jMin && f.jMax <= RoundHalfEven(grid.y / grid.length)
  {
    var len := grid.length;
    var c := GetRange(uavPos, grid, tanHalfFov, false);
    GetRangeInsideMap(uavPos, grid, tanHalfFov);
    UavCamera.DivMonotonic(0.0, c.xMin, len);
    UavCamera.DivMonotonic(0.0, c.yMin, len);
    RoundMonotonic(0.0, c.xMin / len);
    RoundMonotonic(0.0, c.yMin / len);
    RoundOfInt(0);
    UavCamera.DivMonotonic(c.xMax, grid.x, len);
    UavCamera.DivMonotonic(c.yMax, grid.y, len);
    RoundMonotonic(c.xMax / len, grid.x / len);
    RoundMonotonic(c.yMax / len, grid.y / len);
  }

  /** The values of `np.arange(start, stop, step)`. */
  function Arange(start: real, stop: real, step: real): (s: seq<real>)
    requires step > 0.0
    ensures |s| == Terrain.ArangeCount(stop - start, step)
    ensures forall k :: 0 <= k < |s| ==> s[k] == start + k as real * step
  {
    seq(Terrain.ArangeCount(stop - start, step), k => start + k as real * step)
  }

  /** `np.meshgrid(xs, ys, indexing="ij")`. */
  function MeshgridIJ(xs: seq<real>, ys: seq<real>): (m: (seq<seq<real>>, seq<seq<real>>))
    ensures |m.0| == |xs| && |m.1| == |xs| && IsRect(m.0) && IsRect(m.1)
    ensures forall a :: 0 <= a < |xs| ==> |m.0[a]| == |ys| && |m.1[a]| == |ys|
    ensures forall a, b :: 0 <= a < |xs| && 0 <= b < |ys| ==> m.0[a][b] == xs[a] && m.1[a][b] == ys[b]
  {
    (seq(|xs|, a requires 0 <= a < |xs| => seq(|ys|, b => xs[a])),
     seq(|xs|, a => seq(|ys|, b requires 0 <= b < |ys| => ys[b])))
  }

  /** `np.round(altitude, decimals=2)`: the key of the altitude in the
      table of error rates. */
  function RoundedAltitude(altitude: real): real {
    RoundHalfEven(altitude * 100.0) as real / 100.0
  }

  /** The error rates of the state 0 and the state 1 at `altitude`: the
      entry of the table under the rounded altitude, or `sigma` for both. */
  function ErrorRates(confidence: Option<map<real, (real, real)>>, altitude: real, exp: real -> real): (r: Result<(real, real)>)
    ensures r.Err? <==> confidence.Some? && RoundedAltitude(altitude) !in confidence.value
    ensures r.Err? ==> r.error == KeyError
    ensures r.Ok? && confidence.Some? ==> r.value == confidence.value[RoundedAltitude(altitude)]
    ensures r.Ok? && confidence.None? ==> r.value.0 == r.value.1 == Sensor.Sigma(exp, altitude)
  {
    var key := RoundedAltitude(altitude);
    if confidence.None? then
      var s := Sensor.Sigma(exp, altitude);
      Ok((s, s))
    else if key !in confidence.value then Err(KeyError)
    else Ok(confidence.value[key])
  }

  /** The ground truth under the index footprint. */
  function FootprintSubmap(groundTruth: seq<seq<int>>, f: UavCamera.Footprint): seq<seq<int>>
    requires IsRect(groundTruth) && f.Indices?
  {
    Submap(groundTruth, f.iMin, f.iMax, f.jMin, f.jMax)
  }

  /** `get_observations(grid_info, ground_truth_map, uav_pos, rng,
      confidence_dict)`: the meshgrid of the cell origins of the index
      footprint, and the observation of the ground truth under it, where
      `draws(a, b)` is the uniform value drawn for cell (a, b) of the
      submap. */
  function GetObservations(grid: Grid, groundTruth: seq<seq<int>>, uavPos: UavPosition, tanHalfFov: real,
                           draws: (nat, nat) -> real, confidence: Option<map<real, (real, real)>>,
                           exp: real -> real): (r: Result<(seq<seq<real>>, seq<seq<real>>, seq<seq<int>>)>)
    requires IsRect(groundTruth)
    ensures r.Err? <==> ErrorRates(confidence, uavPos.altitude, exp).Err?
    ensures r.Err? ==> r.error == KeyError
    ensures r.Ok? ==> var f := GetRange(uavPos, grid, tanHalfFov, true);
      (r.value.0, r.value.1) == CellOrigins(f.iMin, f.iMax, f.jMin, f.jMax, grid.length)
  {
    var f := GetRange(uavPos, grid, tanHalfFov, true);
    var xy := CellOrigins(f.iMin, f.iMax, f.jMin, f.jMax, grid.length);
    var sig := ErrorRates(confidence, uavPos.altitude, exp);
    if sig.Err? then Err(sig.error)
    else Ok((xy.0, xy.1, Sensor.ObserveMap(FootprintSubmap(groundTruth, f), draws, sig.value.0, sig.value.1)))
  }

  /** The observation has the shape of the ground truth under the
      footprint, is binary, and agrees with the ground truth at a cell
      exactly when that cell's draw is at most `1 - s` for the error rate
      `s` of its true state. */
  lemma {:induction false} GetObservationsFlipRule(grid: Grid, groundTruth: seq<seq<int>>, uavPos: UavPosition,
                                                  tanHalfFov: real, draws: (nat, nat) -> real,
                                                  confidence: Option<map<real, (real, real)>>, exp: real -> real,
                                                  a: nat, b: nat)
    requires IsRect(groundTruth)
    requires ErrorRates(confidence, uavPos.altitude, exp).Ok?
    ensures var r := GetObservations(grid, groundTruth, uavPos, tanHalfFov, draws, confidence, exp);
      var sub := FootprintSubmap(groundTruth, GetRange(uavPos, grid, tanHalfFov, true));
      var sig := ErrorRates(confidence, uavPos.altitude, exp).value;
      && r.Ok? && |r.value.2| == |sub|
      && (a < |sub| ==> |r.value.2[a]| == |sub[a]|)
      && (a < |sub| && b < |sub[a]| ==>
            && (r.value.2[a][b] == 0 || r.value.2[a][b] == 1)
            && (sub[a][b] == 0 ==> (r.value.2[a][b] == 0 <==> draws(a, b) <= 1.0 - sig.0))
            && (sub[a][b] == 1 ==> (r.value.2[a][b] == 1 <==> draws(a, b) <= 1.0 - sig.1)))
  {
  }

  /** The meshgrid of `get_observations`: the metric origins of the cells
      `[iMin, iMax) x [jMin, jMax)`, as two `arange`s of cell length. */
  function CellOrigins(iMin: int, iMax: int, jMin: int, jMax: int, len: real): (m: (seq<seq<real>>, seq<seq<real>>))
    requires len > 0.0
  {
    MeshgridIJ(Arange(iMin as real * len, iMax as real * len, len), Arange(jMin as real * len, jMax as real * len, len))
  }

  /** Entry (a, b) of the meshgrid is the origin of cell `(iMin + a, jMin +
      b)`, for every cell of the range. */
  lemma {:induction false} CellOriginsValues(iMin: int, iMax: int, jMin: int, jMax: int, len: real, a: nat, b: nat)
    requires len > 0.0
    ensures var m := CellOrigins(iMin, iMax, jMin, jMax, len);
      var rows := Terrain.ArangeCount(iMax as real * len - iMin as real * len, len);
      var cols := Terrain.ArangeCount(jMax as real * len - jMin as real * len, len);
      && |m.0| == rows && |m.1| == rows
      && (a < rows ==> |m.0[a]| == cols && |m.1[a]| == cols)
      && (a < rows && b < cols ==> m.0[a][b] == (iMin + a) as real * len && m.1[a][b] == (jMin + b) as real * len)
  {
    OffsetScaled(iMin, a, len);
    OffsetScaled(jMin, b, len);
  }

  lemma OffsetScaled(i: int, a: nat, len: real)
    ensures i as real * len + a as real * len == (i + a) as real * len
  {
    var s := (i + a) as real;
    assert s == i as real + a as real;
  }

  // ---------------------------------------------------------------------
  // Messages and marginals

  /** Every directed edge of the grid is a key of `msgs`, and nothing else. */
  ghost predicate KeysAreEdges(n: (nat, nat), msgs: map<Edge, Vec2>) {
    forall e {:trigger e in msgs} :: e in msgs <==> IsEdge(n, e)
  }

  /** The `incoming_messages` comprehension over the neighbours `s` of `c`:
      the message from each neighbour that is inside the grid and is not
      `except`, in the order of `s`. */
  function IncomingList(n: (nat, nat), msgs: map<Edge, Vec2>, s: seq<Cell>, c: Cell, except: Option<Cell>): seq<Vec2>
    requires InRect(c, 0, n.0, 0, n.1) && KeysAreEdges(n, msgs)
    requires forall k :: 0 <= k < |s| ==> Adjacent(c, s[k])
  {
    if |s| == 0 then []
    else
      var b := s[|s| - 1];
      assert Adjacent(c, s[|s| - 1]);
      IncomingList(n, msgs, s[..|s| - 1], c, except)
        + (if InRect(b, 0, n.0, 0, n.1) && Some(b) != except then [msgs[(b, c)]] else [])
  }

  /** `incoming_messages` for the cell `c`, its neighbours taken top, bottom,
      left, right. */
  function MessagesInto(n: (nat, nat), msgs: map<Edge, Vec2>, c: Cell, except: Option<Cell>): seq<Vec2>
    requires InRect(c, 0, n.0, 0, n.1) && KeysAreEdges(n, msgs)
  {
    IncomingList(n, msgs, FourNeighbours(c), c, except)
  }

  /** What the message from the neighbour `b` contributes to the product of
      the messages into `c`: the message when `b` is a sender, otherwise the
      neutral [1, 1]. */
  function Factor(n: (nat, nat), msgs: map<Edge, Vec2>, b: Cell, c: Cell, except: Option<Cell>): Vec2
    requires InRect(c, 0, n.0, 0, n.1) && KeysAreEdges(n, msgs) && Adjacent(c, b)
  {
    if InRect(b, 0, n.0, 0, n.1) && Some(b) != except then msgs[(b, c)] else Vec2(1.0, 1.0)
  }

  /** The factors of the neighbours in `s`, multiplied in order. */
  function FactorProduct(n: (nat, nat), msgs: map<Edge, Vec2>, s: seq<Cell>, c: Cell, except: Option<Cell>): Vec2
    requires InRect(c, 0, n.0, 0, n.1) && KeysAreEdges(n, msgs)
    requires forall k :: 0 <= k < |s| ==> Adjacent(c, s[k])
  {
    if |s| == 0 then Vec2(1.0, 1.0)
    else Mul(FactorProduct(n, msgs, s[..|s| - 1], c, except), Factor(n, msgs, s[|s| - 1], c, except))
  }

  /** `prod_incoming`, the product of the messages into `c`, as the product
      of the factors of its four neighbours top, bottom, left, right. */
  function ProdIncoming(n: (nat, nat), msgs: map<Edge, Vec2>, c: Cell, except: Option<Cell>): Vec2
    requires InRect(c, 0, n.0, 0, n.1) && KeysAreEdges(n, msgs)
  {
    FactorProduct(n, msgs, FourNeighbours(c), c, except)
  }

  lemma ProdVecsSnoc(l: seq<Vec2>, m: Vec2)
    ensures ProdVecs(l + [m]) == Mul(ProdVecs(l), m)
  {
    assert (l + [m])[..|l|] == l;
  }

  lemma MulOne(v: Vec2)
    ensures Mul(v, Vec2(1.0, 1.0)) == v
  {
  }

  /** Multiplying the listed messages is multiplying every factor: a
      neighbour left out of the list contributes [1, 1]. */
  lemma {:induction false} ListedProduct(n: (nat, nat), msgs: map<Edge, Vec2>, s: seq<Cell>, c: Cell, except: Option<Cell>)
    requires InRect(c, 0, n.0, 0, n.1) && KeysAreEdges(n, msgs)
    requires forall k :: 0 <= k < |s| ==> Adjacent(c, s[k])
    ensures ProdVecs(IncomingList(n, msgs, s, c, except)) == FactorProduct(n, msgs, s, c, except)
  {
    if |s| > 0 {
      var init, b := s[..|s| - 1], s[|s| - 1];
      ListedProduct(n, msgs, init, c, except);
      var l := IncomingList(n, msgs, init, c, except);
      if InRect(b, 0, n.0, 0, n.1) && Some(b) != except {
        assert IsEdge(n, (b, c));
        ProdVecsSnoc(l, msgs[(b, c)]);
      } else {
        assert IncomingList(n, msgs, s, c, except) == l;
        MulOne(FactorProduct(n, msgs, init, c, except));
      }
    }
  }

  /** The product of the factors is `np.prod` of the `incoming_messages`
      list. */
  lemma {:induction false} ProdIncomingIsProduct(n: (nat, nat), msgs: map<Edge, Vec2>, c: Cell, except: Option<Cell>)
    requires InRect(c, 0, n.0, 0, n.1) && KeysAreEdges(n, msgs)
    ensures ProdIncoming(n, msgs, c, except) == ProdVecs(MessagesInto(n, msgs, c, except))
  {
    ListedProduct(n, msgs, FourNeighbours(c), c, except);
  }

  /** Every factor, and so the product, is positive when every message is. */
  lemma {:induction false} FactorProductPositive(n: (nat, nat), msgs: map<Edge, Vec2>, s: seq<Cell>, c: Cell, except: Option<Cell>)
    requires InRect(c, 0, n.0, 0, n.1) && KeysAreEdges(n, msgs)
    requires forall k :: 0 <= k < |s| ==> Adjacent(c, s[k])
    requires PositiveMessages(msgs)
    ensures IsPositiveVec(FactorProduct(n, msgs, s, c, except))
  {
    if |s| > 0 {
      FactorProductPositive(n, msgs, s[..|s| - 1], c, except);
      MulPositiveVec(FactorProduct(n, msgs, s[..|s| - 1], c, except), Factor(n, msgs, s[|s| - 1], c, except));
    }
  }

  lemma {:induction false} ProdIncomingPositive(n: (nat, nat), msgs: map<Edge, Vec2>, c: Cell, except: Option<Cell>)
    requires InRect(c, 0, n.0, 0, n.1) && KeysAreEdges(n, msgs)
    requires PositiveMessages(msgs)
    ensures IsPositiveVec(ProdIncoming(n, msgs, c, except))
  {
    FactorProductPositive(n, msgs, FourNeighbours(c), c, except);
  }

  /** When every message is [0.5, 0.5] the product has equal, positive
      entries. */
  lemma {:induction false} FactorProductUniform(n: (nat, nat), msgs: map<Edge, Vec2>, s: seq<Cell>, c: Cell, except: Option<Cell>)
    requires InRect(c, 0, n.0, 0, n.1) && KeysAreEdges(n, msgs)
    requires forall k :: 0 <= k < |s| ==> Adjacent(c, s[k])
    requires forall e {:trigger msgs[e]} :: e in msgs ==> msgs[e] == Vec2(0.5, 0.5)
    ensures FactorProduct(n, msgs, s, c, except).p0 == FactorProduct(n, msgs, s, c, except).p1 > 0.0
  {
    if |s| > 0 {
      FactorProductUniform(n, msgs, s[..|s| - 1], c, except);
      var f := Factor(n, msgs, s[|s| - 1], c, except);
      assert f.p0 == f.p1 > 0.0;
      var m := MulBalanced(FactorProduct(n, msgs, s[..|s| - 1], c, except), f);
    }
  }

  lemma {:induction false} ProdIncomingUniform(n: (nat, nat), msgs: map<Edge, Vec2>, c: Cell, except: Option<Cell>)
    requires InRect(c, 0, n.0, 0, n.1) && KeysAreEdges(n, msgs)
    requires forall e {:trigger msgs[e]} :: e in msgs ==> msgs[e] == Vec2(0.5, 0.5)
    ensures ProdIncoming(n, msgs, c, except).p0 == ProdIncoming(n, msgs, c, except).p1 > 0.0
  {
    FactorProductUniform(n, msgs, FourNeighbours(c), c, except);
  }

  /** The product of two vectors with equal, positive entries has equal,
      positive entries. */
  lemma MulBalanced(a: Vec2, b: Vec2) returns (m: Vec2)
    requires a.p0 == a.p1 > 0.0 && b.p0 == b.p1 > 0.0
    ensures m == Mul(a, b) && m.p0 == m.p1 > 0.0
  {
    m := Mul(a, b);
    MulCongruentR(a.p0, b.p0, a.p1, b.p1);
    MulPositive(a.p0, b.p0);
  }

  lemma MulCongruentR(a: real, b: real, c: real, e: real)
    requires a == c && b == e
    ensures a * b == c * e
  {
  }

  /** `np.dot(v, psi)` for a row vector `v`. */
  function Dot(v: Vec2, psi: Psi): Vec2 {
    Vec2(v.p0 * psi.p00 + v.p1 * psi.p10, v.p0 * psi.p01 + v.p1 * psi.p11)
  }

  /** A row-stochastic potential keeps the total of what it multiplies. */
  lemma {:induction false} DotKeepsTotal(v: Vec2, psi: Psi)
    requires IsRowStochastic(psi)
    ensures Total(Dot(v, psi)) == Total(v)
  {
    assert v.p0 * psi.p00 + v.p0 * psi.p01 == v.p0 * (psi.p00 + psi.p01);
    assert v.p1 * psi.p10 + v.p1 * psi.p11 == v.p1 * (psi.p10 + psi.p11);
  }

  /** `np.dot(phi[i, j] * prod_incoming, psi)` normalised; its total can be
      zero, where numpy would divide 0 by 0. */
  function NewMessage(phiC: Vec2, prodIncoming: Vec2, psi: Psi): (r: Result<Vec2>)
    ensures r.Err? ==> r.error == NotANumber
    ensures r.Ok? ==> Total(r.value) == 1.0
  {
    var v := Dot(Mul(phiC, prodIncoming), psi);
    if Total(v) == 0.0 then Err(NotANumber) else Ok(Normalize(v))
  }

  predicate IsPositiveVec(v: Vec2) { 0.0 < v.p0 && 0.0 < v.p1 }

  lemma {:induction false} MulPositiveVec(a: Vec2, b: Vec2)
    requires IsPositiveVec(a) && IsPositiveVec(b)
    ensures IsPositiveVec(Mul(a, b))
  {
    MulPositive(a.p0, b.p0);
    MulPositive(a.p1, b.p1);
  }

  lemma {:induction false} DotPositive(v: Vec2, psi: Psi)
    requires IsPositiveVec(v) && IsPositive(psi)
    ensures IsPositiveVec(Dot(v, psi))
  {
    MulPositive(v.p0, psi.p00);
    MulPositive(v.p1, psi.p10);
    MulPositive(v.p0, psi.p01);
    MulPositive(v.p1, psi.p11);
  }

  /** With positive local evidence, positive incoming messages and a
      positive potential, the new message is defined and is a distribution
      with no zero entry. */
  lemma {:induction false} NewMessagePositive(phiC: Vec2, prodIncoming: Vec2, psi: Psi)
    requires IsPositiveVec(phiC) && IsPositiveVec(prodIncoming) && IsPositive(psi)
    ensures NewMessage(phiC, prodIncoming, psi).Ok?
    ensures IsPositiveDistribution(NewMessage(phiC, prodIncoming, psi).value)
  {
    MulPositiveVec(phiC, prodIncoming);
    DotPositive(Mul(phiC, prodIncoming), psi);
  }

  /** The uniform potential sends the uniform message [0.5, 0.5] whatever
      it receives. */
  lemma {:induction false} NewMessageUniform(phiC: Vec2, prodIncoming: Vec2)
    requires NewMessage(phiC, prodIncoming, EqualPsi).Ok?
    ensures NewMessage(phiC, prodIncoming, EqualPsi).value == Vec2(0.5, 0.5)
  {
    var v := Mul(phiC, prodIncoming);
    var d := Dot(v, EqualPsi);
    assert d.p0 == d.p1;
    var r := Normalize(d);
    assert r.p0 * Total(d) == r.p1 * Total(d);
    assert r.p0 == r.p1;
  }

  /** The new message along the edge `e`. */
  function EdgeMessage(n: (nat, nat), msgs: map<Edge, Vec2>, phi: array2<Vec2>, psi: Psi, e: Edge): Result<Vec2>
    requires KeysAreEdges(n, msgs) && IsEdge(n, e)
    requires phi.Length0 == n.0 && phi.Length1 == n.1
    reads phi
  {
    NewMessage(phi[e.0.i, e.0.j], ProdIncoming(n, msgs, e.0, Some(e.1)), psi)
  }

  /** One synchronous pass of `propagate_messages`: every new message is
      computed from the old map only. */
  function StepMessages(n: (nat, nat), msgs: map<Edge, Vec2>, phi: array2<Vec2>, psi: Psi): (r: Result<map<Edge, Vec2>>)
    requires KeysAreEdges(n, msgs)
    requires phi.Length0 == n.0 && phi.Length1 == n.1
    reads phi
    ensures r.Err? <==> exists e {:trigger EdgeMessage(n, msgs, phi, psi, e)} :: e in msgs && EdgeMessage(n, msgs, phi, psi, e).Err?
    ensures r.Err? ==> r.error == NotANumber
    ensures r.Ok? ==> KeysAreEdges(n, r.value)
    ensures r.Ok? ==> forall e {:trigger r.value[e]} :: e in r.value ==> Total(r.value[e]) == 1.0
    ensures r.Ok? ==> forall e {:trigger r.value[e]} :: e in r.value ==> EdgeMessage(n, msgs, phi, psi, e) == Ok(r.value[e])
  {
    if exists e {:trigger EdgeMessage(n, msgs, phi, psi, e)} :: e in msgs && EdgeMessage(n, msgs, phi, psi, e).Err? then Err(NotANumber)
    else Ok(map e | e in msgs :: EdgeMessage(n, msgs, phi, psi, e).value)
  }

  /** A pass fails when the message of any one edge does. */
  lemma {:induction false} StepFails(n: (nat, nat), msgs: map<Edge, Vec2>, phi: array2<Vec2>, psi: Psi, e: Edge)
    requires KeysAreEdges(n, msgs)
    requires phi.Length0 == n.0 && phi.Length1 == n.1
    requires e in msgs && EdgeMessage(n, msgs, phi, psi, e).Err?
    ensures StepMessages(n, msgs, phi, psi) == Err(NotANumber)
  {
  }

  /** Adding one computed message keeps every entry of a partial step map
      equal to its edge's new message. */
  lemma StepExtends(n: (nat, nat), msgs: map<Edge, Vec2>, phi: array2<Vec2>, psi: Psi,
                    next: map<Edge, Vec2>, e: Edge, v: Vec2)
    requires KeysAreEdges(n, msgs)
    requires phi.Length0 == n.0 && phi.Length1 == n.1
    requires next.Keys <= msgs.Keys && e in msgs
    requires forall e' {:trigger next[e']} :: e' in next ==> EdgeMessage(n, msgs, phi, psi, e') == Ok(next[e'])
    requires EdgeMessage(n, msgs, phi, psi, e) == Ok(v)
    ensures forall e' {:trigger next[e := v][e']} :: e' in next[e := v] ==> EdgeMessage(n, msgs, phi, psi, e') == Ok(next[e := v][e'])
  {
  }

  lemma {:induction false} StepComplete(n: (nat, nat), msgs: map<Edge, Vec2>, phi: array2<Vec2>, psi: Psi,
                                        next: map<Edge, Vec2>)
    requires KeysAreEdges(n, msgs)
    requires phi.Length0 == n.0 && phi.Length1 == n.1
    requires next.Keys == msgs.Keys
    requires forall e {:trigger next[e]} :: e in next ==> EdgeMessage(n, msgs, phi, psi, e) == Ok(next[e])
    ensures StepMessages(n, msgs, phi, psi) == Ok(next)
  {
    NoEdgeFails(n, msgs, phi, psi, next);
    NextIsComprehension(n, msgs, phi, psi, next);
  }

  lemma {:induction false} NoEdgeFails(n: (nat, nat), msgs: map<Edge, Vec2>, phi: array2<Vec2>, psi: Psi,
                                       next: map<Edge, Vec2>)
    requires KeysAreEdges(n, msgs)
    requires phi.Length0 == n.0 && phi.Length1 == n.1
    requires next.Keys == msgs.Keys
    requires forall e {:trigger next[e]} :: e in next ==> EdgeMessage(n, msgs, phi, psi, e) == Ok(next[e])
    ensures !exists e {:trigger EdgeMessage(n, msgs, phi, psi, e)} :: e in msgs && EdgeMessage(n, msgs, phi, psi, e).Err?
  {
    forall e {:trigger EdgeMessage(n, msgs, phi, psi, e)} | e in msgs ensures EdgeMessage(n, msgs, phi, psi, e).Ok? {
      assert e in next;
    }
  }

  lemma {:induction false} NextIsComprehension(n: (nat, nat), msgs: map<Edge, Vec2>, phi: array2<Vec2>, psi: Psi,
                                               next: map<Edge, Vec2>)
    requires KeysAreEdges(n, msgs)
    requires phi.Length0 == n.0 && phi.Length1 == n.1
    requires next.Keys == msgs.Keys
    requires forall e {:trigger next[e]} :: e in next ==> EdgeMessage(n, msgs, phi, psi, e) == Ok(next[e])
    ensures next == map e | e in msgs :: EdgeMessage(n, msgs, phi, psi, e).value
  {
    var spec := map e | e in msgs :: EdgeMessage(n, msgs, phi, psi, e).value;
    assert next.Keys == spec.Keys;
    forall e {:trigger next[e]} | e in next ensures next[e] == spec[e] {
      assert EdgeMessage(n, msgs, phi, psi, e) == Ok(next[e]);
    }
  }

  /** `k` passes of `propagate_messages` starting from `msgs`; the first
      pass that fails ends it. */
  function Iterate(n: (nat, nat), msgs: map<Edge, Vec2>, phi: array2<Vec2>, psi: Psi, k: nat): (r: Result<map<Edge, Vec2>>)
    requires KeysAreEdges(n, msgs)
    requires phi.Length0 == n.0 && phi.Length1 == n.1
    reads phi
    ensures r.Ok? ==> KeysAreEdges(n, r.value)
  {
    if k == 0 then Ok(msgs)
    else
      var prev := Iterate(n, msgs, phi, psi, k - 1);
      if prev.Err? then prev else StepMessages(n, prev.value, phi, psi)
  }

  /** Pass `k + 1` is one step from where pass `k` left the messages. */
  lemma {:induction false} IterateNext(n: (nat, nat), msgs: map<Edge, Vec2>, phi: array2<Vec2>, psi: Psi, k: nat,
                                       cur: map<Edge, Vec2>)
    requires KeysAreEdges(n, msgs)
    requires phi.Length0 == n.0 && phi.Length1 == n.1
    requires Iterate(n, msgs, phi, psi, k) == Ok(cur)
    ensures KeysAreEdges(n, cur)
    ensures Iterate(n, msgs, phi, psi, k + 1) == StepMessages(n, cur, phi, psi)
  {
  }

  /** A failed pass ends the propagation with its error. */
  lemma {:induction false} IterateErrorSticks(n: (nat, nat), msgs: map<Edge, Vec2>, phi: array2<Vec2>, psi: Psi, k: nat, m: nat)
    requires KeysAreEdges(n, msgs)
    requires phi.Length0 == n.0 && phi.Length1 == n.1
    requires k <= m && Iterate(n, msgs, phi, psi, k).Err?
    ensures Iterate(n, msgs, phi, psi, m) == Iterate(n, msgs, phi, psi, k)
    decreases m - k
  {
    if k < m {
      IterateErrorSticks(n, msgs, phi, psi, k + 1, m);
    }
  }

  /** No entry of `phi` on the grid is zero. */
  predicate PositivePhi(n: (nat, nat), phi: array2<Vec2>)
    requires phi.Length0 == n.0 && phi.Length1 == n.1
    reads phi
  {
    forall a, b :: 0 <= a < n.0 && 0 <= b < n.1 ==> IsPositiveVec(phi[a, b])
  }

  predicate PositiveMessages(msgs: map<Edge, Vec2>) {
    forall e {:trigger msgs[e]} :: e in msgs ==> IsPositiveVec(msgs[e])
  }

  /** A pass over positive messages with positive local evidence and a
      positive potential cannot fail, and its messages are positive
      distributions again. */
  lemma {:induction false} StepPositive(n: (nat, nat), msgs: map<Edge, Vec2>, phi: array2<Vec2>, psi: Psi)
    requires KeysAreEdges(n, msgs)
    requires phi.Length0 == n.0 && phi.Length1 == n.1
    requires PositivePhi(n, phi) && PositiveMessages(msgs) && IsPositive(psi)
    ensures StepMessages(n, msgs, phi, psi).Ok?
    ensures forall e {:trigger StepMessages(n, msgs, phi, psi).value[e]} :: e in StepMessages(n, msgs, phi, psi).value ==>
              IsPositiveDistribution(StepMessages(n, msgs, phi, psi).value[e])
  {
    forall e {:trigger EdgeMessage(n, msgs, phi, psi, e)} | e in msgs
      ensures EdgeMessage(n, msgs, phi, psi, e).Ok?
      ensures IsPositiveDistribution(EdgeMessage(n, msgs, phi, psi, e).value)
    {
      ProdIncomingPositive(n, msgs, e.0, Some(e.1));
      NewMessagePositive(phi[e.0.i, e.0.j], ProdIncoming(n, msgs, e.0, Some(e.1)), psi);
    }
  }

  /** From positive messages, any number of passes succeeds and keeps
      every message a positive distribution. */
  lemma {:induction false} IteratePositive(n: (nat, nat), msgs: map<Edge, Vec2>, phi: array2<Vec2>, psi: Psi, k: nat)
    requires KeysAreEdges(n, msgs)
    requires phi.Length0 == n.0 && phi.Length1 == n.1
    requires PositivePhi(n, phi) && PositiveMessages(msgs) && IsPositive(psi)
    ensures Iterate(n, msgs, phi, psi, k).Ok?
    ensures PositiveMessages(Iterate(n, msgs, phi, psi, k).value)
  {
    if k > 0 {
      IteratePositive(n, msgs, phi, psi, k - 1);
      var prev := Iterate(n, msgs, phi, psi, k - 1).value;
      StepPositive(n, prev, phi, psi);
    }
  }

  /** Under the uniform potential, every message after a successful pass is
      [0.5, 0.5]. */
  lemma {:induction false} StepUniform(n: (nat, nat), msgs: map<Edge, Vec2>, phi: array2<Vec2>)
    requires KeysAreEdges(n, msgs)
    requires phi.Length0 == n.0 && phi.Length1 == n.1
    requires StepMessages(n, msgs, phi, EqualPsi).Ok?
    ensures forall e {:trigger StepMessages(n, msgs, phi, EqualPsi).value[e]} :: e in StepMessages(n, msgs, phi, EqualPsi).value ==>
              StepMessages(n, msgs, phi, EqualPsi).value[e] == Vec2(0.5, 0.5)
  {
    forall e {:trigger EdgeMessage(n, msgs, phi, EqualPsi, e)} | e in msgs ensures EdgeMessage(n, msgs, phi, EqualPsi, e).Ok? ==> EdgeMessage(n, msgs, phi, EqualPsi, e).value == Vec2(0.5, 0.5) {
      if EdgeMessage(n, msgs, phi, EqualPsi, e).Ok? {
        NewMessageUniform(phi[e.0.i, e.0.j], ProdIncoming(n, msgs, e.0, Some(e.1)));
      }
    }
  }

  /** The marginal of `marginalize` at `c` with local evidence `phiC`:
      `phiC` times every message into `c`, normalised; a zero total is where
      numpy divides 0 by 0. */
  function Marginal(n: (nat, nat), msgs: map<Edge, Vec2>, phiC: Vec2, c: Cell): (r: Result<Vec2>)
    requires KeysAreEdges(n, msgs) && InRect(c, 0, n.0, 0, n.1)
    ensures r.Err? ==> r.error == NotANumber
    ensures r.Ok? ==> Total(r.value) == 1.0
  {
    var v := Mul(phiC, ProdIncoming(n, msgs, c, None));
    if Total(v) == 0.0 then Err(NotANumber) else Ok(Normalize(v))
  }

  /** With positive local evidence and positive messages every marginal is
      defined and is a distribution with no zero entry. */
  lemma {:induction false} MarginalPositive(n: (nat, nat), msgs: map<Edge, Vec2>, phiC: Vec2, c: Cell)
    requires KeysAreEdges(n, msgs) && InRect(c, 0, n.0, 0, n.1)
    requires IsPositiveVec(phiC) && PositiveMessages(msgs)
    ensures Marginal(n, msgs, phiC, c).Ok?
    ensures IsPositiveDistribution(Marginal(n, msgs, phiC, c).value)
  {
    ProdIncomingPositive(n, msgs, c, None);
    MulPositiveVec(phiC, ProdIncoming(n, msgs, c, None));
  }

  /** While every message is uniform (as right after construction), the
      marginal of a cell is its local evidence. */
  lemma {:induction false} MarginalOfUniformMessages(n: (nat, nat), msgs: map<Edge, Vec2>, phiC: Vec2, c: Cell)
    requires KeysAreEdges(n, msgs) && InRect(c, 0, n.0, 0, n.1)
    requires forall e {:trigger msgs[e]} :: e in msgs ==> msgs[e] == Vec2(0.5, 0.5)
    requires IsDistribution(phiC)
    ensures Marginal(n, msgs, phiC, c) == Ok(phiC)
  {
    var p := ProdIncoming(n, msgs, c, None);
    ProdIncomingUniform(n, msgs, c, None);
    assert p == Vec2(p.p0, p.p0);
    ScaledNormalize(phiC, p.p0);
  }

  lemma ScaledNormalize(f: Vec2, x: real)
    requires IsDistribution(f) && x > 0.0
    ensures Total(Mul(f, Vec2(x, x))) != 0.0 && Normalize(Mul(f, Vec2(x, x))) == f
  {
    var v := Mul(f, Vec2(x, x));
    assert Total(v) == (f.p0 + f.p1) * x;
    assert Total(v) == x;
    var r := Normalize(v);
    assert r.p0 * x == f.p0 * x;
    assert r.p1 * x == f.p1 * x;
  }

  // ---------------------------------------------------------------------
  // The observation update

  /** The numpy index `k` on an axis of length `len`: negative indices
      count from the end. */
  function Wrap(k: int, len: nat): (r: int)
    ensures InAxis(k, len) ==> 0 <= r < len
  {
    if k < 0 then k + len else k
  }

  predicate InAxis(k: int, len: nat) { -(len as int) <= k < len }

  /** `(a / gl).astype(int).flatten()`. */
  function CellIndices(a: seq<seq<real>>, gl: real): seq<int>
    requires gl != 0.0
  {
    Flatten(seq(|a|, r requires 0 <= r < |a| => seq(|a[r]|, c requires 0 <= c < |a[r]| => Trunc(a[r][c] / gl))))
  }

  /** The error rates `update_observations` uses: the table entry under the
      altitude itself, or `sigma` for both states. */
  function UpdateRates(confDict: Option<map<real, (real, real)>>, altitude: real, exp: real -> real): (r: Result<(real, real)>)
    ensures r.Err? <==> confDict.Some? && altitude !in confDict.value
    ensures r.Err? ==> r.error == KeyError
    ensures r.Ok? && confDict.Some? ==> r.value == confDict.value[altitude]
    ensures r.Ok? && confDict.None? ==> r.value.0 == r.value.1 == Sensor.Sigma(exp, altitude)
  {
    if confDict.None? then
      var s := Sensor.Sigma(exp, altitude);
      Ok((s, s))
    else if altitude !in confDict.value then Err(KeyError)
    else Ok(confDict.value[altitude])
  }

  /** `prior_beliefs * local_evidence` at the `k`-th index pair of the
      broadcast of `rowIdx` and `colIdx`, with the observation `z` numpy
      pairs with it (its only element when `z` has one). */
  function Fused(marginals: array2<Vec2>, rowIdx: seq<int>, colIdx: seq<int>, z: seq<int>, rates: (real, real)): (f: seq<Vec2>)
    requires Broadcastable(|rowIdx|, |colIdx|)
    requires |z| == 1 || |z| == BroadcastLen(|rowIdx|, |colIdx|)
    requires forall k :: 0 <= k < BroadcastLen(|rowIdx|, |colIdx|) ==>
               InAxis(Pick(rowIdx, k), marginals.Length0) && InAxis(Pick(colIdx, k), marginals.Length1)
    reads marginals
    ensures |f| == BroadcastLen(|rowIdx|, |colIdx|)
    ensures forall k :: 0 <= k < |f| ==>
              f[k] == Mul(marginals[Wrap(Pick(rowIdx, k), marginals.Length0), Wrap(Pick(colIdx, k), marginals.Length1)],
                          Evidence(Pick(z, k), rates.0, rates.1))
  {
    var n := BroadcastLen(|rowIdx|, |colIdx|);
    seq(n, k requires 0 <= k < n reads marginals =>
      Mul(marginals[Wrap(Pick(rowIdx, k), marginals.Length0), Wrap(Pick(colIdx, k), marginals.Length1)],
          Evidence(Pick(z, k), rates.0, rates.1)))
  }

  /** The writes `update_observations` makes to `phi` (cell and new value,
      in order), or the error it runs into first. numpy broadcasts a
      one-element `j_flat` (or `i_flat`) against the other index array and a
      one-element observation against the index pairs, so there is one
      write per index pair of the broadcast. */
  function ObservationWrites(x: seq<seq<real>>, y: seq<seq<real>>, submap: seq<seq<int>>, altitude: real,
                             exp: real -> real, confDict: Option<map<real, (real, real)>>,
                             marginals: array2<Vec2>, n: (nat, nat)): (r: Result<seq<(Cell, Vec2)>>)
    reads marginals
    ensures r.Ok? ==>
      && |x| >= 2 && |x[0]| > 0 && |x[1]| > 0 && x[1][0] - x[0][0] != 0.0
      && var gl := x[1][0] - x[0][0];
         var rowIdx, colIdx := CellIndices(x, gl), CellIndices(y, gl);
         && Broadcastable(|rowIdx|, |colIdx|)
         && |r.value| == BroadcastLen(|rowIdx|, |colIdx|)
         && (|Flatten(submap)| == 1 || |Flatten(submap)| == |r.value|)
    ensures r.Ok? ==> forall k :: 0 <= k < |r.value| ==> InRect(r.value[k].0, 0, n.0, 0, n.1) && Total(r.value[k].1) == 1.0
  {
    if |x| < 2 || |x[0]| == 0 || |x[1]| == 0 then Err(IndexError)
    else
      var gl := x[1][0] - x[0][0];
      if gl == 0.0 then Err(NotANumber)
      else
        var rowIdx, colIdx, z := CellIndices(x, gl), CellIndices(y, gl), Flatten(submap);
        var rates := UpdateRates(confDict, altitude, exp);
        if rates.Err? then Err(rates.error)
        else if !Broadcastable(|rowIdx|, |colIdx|) then Err(IndexError)
        else
          var pairs := BroadcastLen(|rowIdx|, |colIdx|);
          if exists k :: 0 <= k < pairs && !(InAxis(Pick(rowIdx, k), marginals.Length0) && InAxis(Pick(colIdx, k), marginals.Length1)) then
            Err(IndexError)
          else if |z| != 1 && |z| != pairs then Err(ValueError)
          else
            var fused := Fused(marginals, rowIdx, colIdx, z, rates.value);
            if exists k :: 0 <= k < |fused| && Total(fused[k]) == 0.0 then Err(NotANumber)
            else if exists k :: 0 <= k < pairs && !(InAxis(Pick(rowIdx, k), n.0) && InAxis(Pick(colIdx, k), n.1)) then Err(IndexError)
            else Ok(seq(pairs, k requires 0 <= k < pairs => (Cell(Wrap(Pick(rowIdx, k), n.0), Wrap(Pick(colIdx, k), n.1)), Normalize(fused[k]))))
  }

  /** The value at `c` after the writes `w` over `dflt`: the last write to
      `c` wins. */
  function LastWrite(w: seq<(Cell, Vec2)>, c: Cell, dflt: Vec2): Vec2 {
    if |w| == 0 then dflt
    else if w[|w| - 1].0 == c then w[|w| - 1].1
    else LastWrite(w[..|w| - 1], c, dflt)
  }

  /** A cell that is not written keeps its value. */
  lemma {:induction false} LastWriteUnwritten(w: seq<(Cell, Vec2)>, c: Cell, dflt: Vec2)
    requires forall k :: 0 <= k < |w| ==> w[k].0 != c
    ensures LastWrite(w, c, dflt) == dflt
  {
    if |w| > 0 {
      LastWriteUnwritten(w[..|w| - 1], c, dflt);
    }
  }

  /** A written cell holds the value of its last write. */
  lemma {:induction false} LastWriteWritten(w: seq<(Cell, Vec2)>, c: Cell, dflt: Vec2, k: nat)
    requires k < |w| && w[k].0 == c
    ensures exists m :: k <= m < |w| && w[m].0 == c && LastWrite(w, c, dflt) == w[m].1 &&
              forall m' :: m < m' < |w| ==> w[m'].0 != c
  {
    var last := |w| - 1;
    if w[last].0 != c {
      var init := w[..last];
      assert LastWrite(w, c, dflt) == LastWrite(init, c, dflt);
      LastWriteWritten(init, c, dflt, k);
      var m :| k <= m < |init| && init[m].0 == c && LastWrite(init, c, dflt) == init[m].1 &&
               forall m' :: m < m' < |init| ==> init[m'].0 != c;
      assert w[m] == init[m];
      assert forall m' :: m < m' < |w| ==> w[m'].0 != c by {
        forall m' | m < m' < |w| ensures w[m'].0 != c {
          if m' < last { assert w[m'] == init[m']; }
        }
      }
    } else {
      assert LastWrite(w, c, dflt) == w[last].1;
    }
  }

  /** With no table of error rates, a binary observation is fused with the
      per-cell local evidence `local_evidence(z, x)` of the altitude. */
  lemma {:induction false} ObservationWritesUseLocalEvidence(x: seq<seq<real>>, y: seq<seq<real>>, submap: seq<seq<int>>,
                                                              altitude: real, exp: real -> real,
                                                              marginals: array2<Vec2>, n: (nat, nat), k: nat)
    requires ObservationWrites(x, y, submap, altitude, exp, None, marginals, n).Ok?
    requires k < |ObservationWrites(x, y, submap, altitude, exp, None, marginals, n).value|
    requires Pick(Flatten(submap), k) == 0 || Pick(Flatten(submap), k) == 1
    ensures var gl := x[1][0] - x[0][0];
      var rowIdx, colIdx := CellIndices(x, gl), CellIndices(y, gl);
      var w := ObservationWrites(x, y, submap, altitude, exp, None, marginals, n).value;
      var prior := marginals[Wrap(Pick(rowIdx, k), marginals.Length0), Wrap(Pick(colIdx, k), marginals.Length1)];
      var ev := LocalEvidence(Pick(Flatten(submap), k), Sensor.Sigma(exp, altitude)).value;
      && w[k].0 == Cell(Wrap(Pick(rowIdx, k), n.0), Wrap(Pick(colIdx, k), n.1))
      && Total(Mul(prior, ev)) != 0.0
      && w[k].1 == Normalize(Mul(prior, ev))
  {
    var s := Sensor.Sigma(exp, altitude);
    EvidenceIsLocalEvidence(Pick(Flatten(submap), k), s);
  }

  /** The cell indices of the one-column coordinate grids used below. */
  lemma {:induction false} ColumnCellIndices()
    ensures CellIndices([[0.0], [1.0]], 1.0) == [0, 1]
    ensures CellIndices([[0.0], [0.0]], 1.0) == [0, 0]
    ensures CellIndices([[0.0]], 1.0) == [0]
  {
    TruncOfInt(0);
    TruncOfInt(1);
    assert Flatten([[0], [1]]) == [0, 1] by {
      assert Flatten([[0], [1]][..1]) == [0];
    }
    assert Flatten([[0], [0]]) == [0, 0] by {
      assert Flatten([[0], [0]][..1]) == [0];
    }
    var x := [[0.0], [1.0]];
    var gx := seq(|x|, r requires 0 <= r < |x| => seq(|x[r]|, c requires 0 <= c < |x[r]| => Trunc(x[r][c] / 1.0)));
    assert gx[0] == [0] && gx[1] == [1];
    assert gx == [[0], [1]];
    var y := [[0.0], [0.0]];
    var gy := seq(|y|, r requires 0 <= r < |y| => seq(|y[r]|, c requires 0 <= c < |y[r]| => Trunc(y[r][c] / 1.0)));
    assert gy[0] == [0] && gy[1] == [0];
    assert gy == [[0], [0]];
    var y1 := [[0.0]];
    var g1 := seq(|y1|, r requires 0 <= r < |y1| => seq(|y1[r]|, c requires 0 <= c < |y1[r]| => Trunc(y1[r][c] / 1.0)));
    assert g1[0] == [0];
    assert g1 == [[0]];
  }

  /** numpy's broadcasting at work: two cells of one column observed with a
      single reading, with a two-element or a one-element `y` index array.
      The update succeeds and writes each of the two cells once. */
  lemma {:induction false} ObservationWritesBroadcast(marginals: array2<Vec2>, exp: real -> real, y: seq<seq<real>>)
    requires marginals.Length0 == 2 && marginals.Length1 == 1
    requires IsPositiveVec(marginals[0, 0]) && IsPositiveVec(marginals[1, 0])
    requires y == [[0.0], [0.0]] || y == [[0.0]]
    ensures var w := ObservationWrites([[0.0], [1.0]], y, [[1]], 10.0, exp, Some(map[10.0 := (0.1, 0.1)]), marginals, (2, 1));
      w.Ok? && |w.value| == 2 && w.value[0].0 == Cell(0, 0) && w.value[1].0 == Cell(1, 0)
  {
    ColumnCellIndices();
    assert Flatten([[1]]) == [1];
    var ev := Evidence(1, 0.1, 0.1);
    MulPositiveVec(marginals[0, 0], ev);
    MulPositiveVec(marginals[1, 0], ev);
  }

  // ---------------------------------------------------------------------
  // The map

  /** `OccupancyMap` of the full-grid variant: local evidence `phi` per
      cell, a message per directed edge, the last submap observed and the
      optional table of error rates by altitude. */
  class OccupancyMap {
    const n: (nat, nat)
    const phi: array2<Vec2>
    var messages: map<Edge, Vec2>
    /** `None` is the empty array the map starts with. */
    var lastObservations: Option<seq<seq<int>>>
    const confDict: Option<map<real, (real, real)>>

    ghost predicate Valid()
      reads this
    {
      && phi.Length0 == n.0 && phi.Length1 == n.1
      && KeysAreEdges(n, messages)
      && (lastObservations.Some? ==> IsRect(lastObservations.value))
    }

    /** `OccupancyMap(grid_shape, conf_dict)`: uniform local evidence, no
        observation yet, and the uniform message [0.5, 0.5] on exactly the
        directed edges between in-bound 4-neighbours. */
    constructor (gridShape: (nat, nat), confDict: Option<map<real, (real, real)>>)
      ensures Valid()
      ensures n == gridShape && this.confDict == confDict && lastObservations.None?
      ensures fresh(phi)
      ensures forall a, b :: 0 <= a < n.0 && 0 <= b < n.1 ==> phi[a, b] == Vec2(0.5, 0.5)
      ensures forall e :: e in messages ==> messages[e] == Vec2(0.5, 0.5)
    {
      n := gridShape;
      phi := new Vec2[gridShape.0, gridShape.1]((a, b) => Vec2(0.5, 0.5));
      lastObservations := None;
      this.confDict := confDict;
      var msgs: map<Edge, Vec2> := map[];
      var i := 0;
      while i < gridShape.0
        invariant 0 <= i <= gridShape.0
        invariant forall e :: e in msgs <==> IsEdge(gridShape, e) && e.0.i < i
        invariant forall e :: e in msgs ==> msgs[e] == Vec2(0.5, 0.5)
      {
        var j := 0;
        while j < gridShape.1
          invariant 0 <= j <= gridShape.1
          invariant forall e :: e in msgs <==> IsEdge(gridShape, e) && EdgeBefore(e, i, j)
          invariant forall e :: e in msgs ==> msgs[e] == Vec2(0.5, 0.5)
        {
          var c := Cell(i, j);
          var four := FourNeighbours(c);
          var k := 0;
          while k < 4
            invariant 0 <= k <= 4
            invariant forall e :: e in msgs <==>
                        (IsEdge(gridShape, e) && EdgeBefore(e, i, j)) ||
                        (e.0 == c && e.1 in four[..k] && InRect(e.1, 0, gridShape.0, 0, gridShape.1))
            invariant forall e :: e in msgs ==> msgs[e] == Vec2(0.5, 0.5)
          {
            var nb := four[k];
            if 0 <= nb.i < gridShape.0 && 0 <= nb.j < gridShape.1 {
              msgs := msgs[(c, nb) := Vec2(0.5, 0.5)];
            }
            assert four[..k + 1] == four[..k] + [nb];
            k := k + 1;
          }
          assert four[..4] == four;
          j := j + 1;
        }
        i := i + 1;
      }
      messages := msgs;
    }

    /** `update_observations(x, y, submap, uav_pos, marginals)`: fuses the
        prior of each observed cell with the evidence of its observation,
        normalises, and writes the result into `phi` (a later write to the
        same cell wins); then remembers the submap. On an error nothing
        changes. */
    method UpdateObservations(x: seq<seq<real>>, y: seq<seq<real>>, submap: seq<seq<int>>, uavPos: UavPosition,
                              marginals: array2<Vec2>, exp: real -> real) returns (err: Option<Error>)
      requires Valid() && IsRect(submap)
      modifies this, phi
      ensures Valid() && messages == old(messages)
      ensures var w := old(ObservationWrites(x, y, submap, uavPos.altitude, exp, confDict, marginals, n));
        && (w.Err? ==> err == Some(w.error) && lastObservations == old(lastObservations) && unchanged(phi))
        && (w.Ok? ==>
              && err.None? && lastObservations == Some(submap)
              && forall a, b :: 0 <= a < n.0 && 0 <= b < n.1 ==>
                   phi[a, b] == LastWrite(w.value, Cell(a, b), old(phi[a, b])))
    {
      var w := ObservationWrites(x, y, submap, uavPos.altitude, exp, confDict, marginals, n);
      if w.Err? {
        return Some(w.error);
      }
      ApplyWrites(w.value);
      lastObservations := Some(submap);
      err := None;
    }

    /** `self.phi[i_flat, j_flat] = fused_beliefs`: the writes in order, so
        the last write to a cell wins. */
    method ApplyWrites(writes: seq<(Cell, Vec2)>)
      requires phi.Length0 == n.0 && phi.Length1 == n.1
      requires forall k :: 0 <= k < |writes| ==> InRect(writes[k].0, 0, n.0, 0, n.1)
      modifies phi
      ensures forall a, b :: 0 <= a < n.0 && 0 <= b < n.1 ==>
                phi[a, b] == LastWrite(writes, Cell(a, b), old(phi[a, b]))
    {
      var k := 0;
      while k < |writes|
        invariant 0 <= k <= |writes|
        invariant forall a, b :: 0 <= a < n.0 && 0 <= b < n.1 ==>
                    phi[a, b] == LastWrite(writes[..k], Cell(a, b), old(phi[a, b]))
      {
        var c := writes[k].0;
        phi[c.i, c.j] := writes[k].1;
        assert writes[..k + 1][..k] == writes[..k];
        k := k + 1;
      }
      assert writes[..|writes|] == writes;
    }

    /** `propagate_messages(max_iterations, correlation_type)`:
        `maxIterations` synchronous passes under the pairwise potential of
        the last observation. */
    method PropagateMessages(maxIterations: nat, correlationType: Option<string>, sqrt: real -> real, exp: real -> real)
      returns (err: Option<Error>)
      requires Valid()
      requires forall t :: exp(t) > 0.0
      modifies this
      ensures Valid() && lastObservations == old(lastObservations)
      ensures var psi := Pairwise.PairwisePotential(correlationType, lastObservations, sqrt, exp);
        && (psi.Err? ==> err == Some(psi.error) && messages == old(messages))
        && (psi.Ok? ==>
              var r := Iterate(n, old(messages), phi, psi.value, maxIterations);
              && (r.Err? ==> err == Some(r.error) && messages == old(messages))
              && (r.Ok? ==> err.None? && messages == r.value))
    {
      var psiR := Pairwise.PairwisePotential(correlationType, lastObservations, sqrt, exp);
      if psiR.Err? {
        return Some(psiR.error);
      }
      var r := Passes(psiR.value, maxIterations);
      if r.Err? {
        return Some(r.error);
      }
      messages := r.value;
      err := None;
    }

    /** The `for _ in range(max_iterations)` loop of `propagate_messages`
        under the potential `psi`: one pass after the other, each from the
        map the one before built. */
    method Passes(psi: Psi, maxIterations: nat) returns (r: Result<map<Edge, Vec2>>)
      requires Valid()
      ensures r == Iterate(n, messages, phi, psi, maxIterations)
    {
      var msgs := messages;
      var it := 0;
      while it < maxIterations
        invariant 0 <= it <= maxIterations
        invariant Iterate(n, messages, phi, psi, it) == Ok(msgs)
      {
        IterateNext(n, messages, phi, psi, it, msgs);
        var next := Step(msgs, psi);
        if next.Err? {
          IterateErrorSticks(n, messages, phi, psi, it + 1, maxIterations);
          return next;
        }
        msgs := next.value;
        it := it + 1;
      }
      return Ok(msgs);
    }

    /** One pass over the message map: each new message from the old map,
        into a fresh map. */
    method Step(msgs: map<Edge, Vec2>, psi: Psi) returns (r: Result<map<Edge, Vec2>>)
      requires KeysAreEdges(n, msgs) && phi.Length0 == n.0 && phi.Length1 == n.1
      ensures r == StepMessages(n, msgs, phi, psi)
    {
      var next, bad := Collect(msgs, psi);
      if bad.Some? {
        StepFails(n, msgs, phi, psi, bad.value);
        return Err(NotANumber);
      }
      StepComplete(n, msgs, phi, psi, next);
      return Ok(next);
    }

    /** The loop of a pass: the new message of every edge, or an edge whose
        new message is not a number. */
    method Collect(msgs: map<Edge, Vec2>, psi: Psi) returns (next: map<Edge, Vec2>, bad: Option<Edge>)
      requires KeysAreEdges(n, msgs) && phi.Length0 == n.0 && phi.Length1 == n.1
      ensures bad.Some? ==> bad.value in msgs && EdgeMessage(n, msgs, phi, psi, bad.value).Err?
      ensures bad.None? ==> (next.Keys == msgs.Keys &&
                forall e {:trigger next[e]} :: e in next ==> EdgeMessage(n, msgs, phi, psi, e) == Ok(next[e]))
    {
      var pending := msgs.Keys;
      next := map[];
      while pending != {}
        invariant pending <= msgs.Keys
        invariant next.Keys == msgs.Keys - pending
        invariant forall e {:trigger next[e]} :: e in next ==> EdgeMessage(n, msgs, phi, psi, e) == Ok(next[e])
        decreases |pending|
      {
        var e :| e in pending;
        var m := EdgeMessage(n, msgs, phi, psi, e);
        if m.Err? {
          return next, Some(e);
        }
        StepExtends(n, msgs, phi, psi, next, e, m.value);
        next := next[e := m.value];
        pending := pending - {e};
      }
      bad := None;
    }

    /** `marginalize()`: a fresh `N0 x N1` array holding the marginal of
        every cell, or the error of the first cell whose total vanishes. */
    method Marginalize() returns (err: Option<Error>, marginals: array2<Vec2>)
      requires Valid()
      ensures fresh(marginals) && marginals.Length0 == n.0 && marginals.Length1 == n.1
      ensures err.Some? ==> err.value == NotANumber
      ensures err.None? <==> forall a, b {:trigger Marginal(n, messages, phi[a, b], Cell(a, b))} :: 0 <= a < n.0 && 0 <= b < n.1 ==> Marginal(n, messages, phi[a, b], Cell(a, b)).Ok?
      ensures err.None? ==> forall a, b {:trigger marginals[a, b]} :: 0 <= a < n.0 && 0 <= b < n.1 ==> Marginal(n, messages, phi[a, b], Cell(a, b)) == Ok(marginals[a, b])
    {
      marginals := new Vec2[n.0, n.1]((a, b) => Vec2(0.0, 0.0));
      var msgs := messages;
      var i := 0;
      while i < n.0
        invariant 0 <= i <= n.0
        invariant marginals != phi
        invariant forall a, b {:trigger marginals[a, b]} :: 0 <= a < i && 0 <= b < n.1 ==> Marginal(n, msgs, phi[a, b], Cell(a, b)) == Ok(marginals[a, b])
      {
        var j := 0;
        while j < n.1
          invariant 0 <= j <= n.1
          invariant marginals != phi
          invariant forall a, b {:trigger marginals[a, b]} :: 0 <= a < i && 0 <= b < n.1 ==> Marginal(n, msgs, phi[a, b], Cell(a, b)) == Ok(marginals[a, b])
          invariant forall b {:trigger marginals[i, b]} :: 0 <= b < j ==> Marginal(n, msgs, phi[i, b], Cell(i, b)) == Ok(marginals[i, b])
        {
          var m := Marginal(n, msgs, phi[i, j], Cell(i, j));
          if m.Err? {
            return Some(NotANumber), marginals;
          }
          marginals[i, j] := m.value;
          j := j + 1;
        }
        i := i + 1;
      }
      forall a, b | 0 <= a < n.0 && 0 <= b < n.1 ensures Marginal(n, messages, phi[a, b], Cell(a, b)).Ok? {
        assert Marginal(n, msgs, phi[a, b], Cell(a, b)) == Ok(marginals[a, b]);
      }
      err := None;
    }
  }

  /** The edge `e` leaves a cell before `(i, j)` in row-major order. */
  predicate EdgeBefore(e: Edge, i: int, j: int) {
    e.0.i < i || (e.0.i == i && e.0.j < j)
  }
}
