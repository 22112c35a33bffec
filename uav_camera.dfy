/** The downward-looking camera of the UAV: its pose, the footprint it
    sees, the observations it makes, and the discrete moves it may take. */
module UavCamera {
  import opened Common
  import opened Grids
  import opened Records
  import Sensor

  /** The seven moves of the planner. A move name the camera does not know
      behaves like `Hover`. */
  datatype Action = Up | Down | Front | Back | Left | Right | Hover

  /** A footprint, in metres or in grid indices. */
  datatype Footprint =
    | Coords(xMin: real, xMax: real, yMin: real, yMax: real)
    | Indices(iMin: int, iMax: int, jMin: int, jMax: int)

  /** `np.clip` of one value into `[lo, hi]`. */
  function ClipR(v: real, lo: real, hi: real): (c: real)
    requires lo <= hi
    ensures lo <= c <= hi
    ensures lo <= v <= hi ==> c == v
  {
    if v < lo then lo else if v > hi then hi else v
  }

  class Camera {
    const grid: Grid
    /** `tan` of half the field-of-view angle. */
    const tanHalfFov: real
    const xRange: (real, real)
    const yRange: (real, real)
    const xyStep: real
    const hStep: real
    const hRange: (real, real)
    const actions: set<Action> := {Up, Down, Front, Back, Left, Right, Hover}
    var altitude: real
    var position: (real, real)

    /** The constructor derives the metric ranges, the planar step (a
        sixteenth of the shorter side) and the altitude step (the altitude
        from which one planar step is half the footprint). */
    constructor (grid: Grid, tanHalfFov: real, cameraAltitude: real, cameraPos: (real, real))
      requires tanHalfFov != 0.0
      ensures this.grid == grid && this.tanHalfFov == tanHalfFov
      ensures altitude == cameraAltitude && position == cameraPos
      ensures grid.center ==> xRange == (-grid.x / 2.0, grid.x / 2.0) && yRange == (-grid.y / 2.0, grid.y / 2.0)
      ensures !grid.center ==> xRange == (0.0, grid.x) && yRange == (0.0, grid.y)
      ensures xyStep == MinR(xRange.1 - xRange.0, yRange.1 - yRange.0) / 2.0 / 8.0
      ensures hStep == xyStep / tanHalfFov
      ensures hRange == (hStep, 6.0 * hStep)
    {
      this.grid := grid;
      this.tanHalfFov := tanHalfFov;
      altitude := cameraAltitude;
      position := cameraPos;
      var xr := if grid.center then (-grid.x / 2.0, grid.x / 2.0) else (0.0, grid.x);
      var yr := if grid.center then (-grid.y / 2.0, grid.y / 2.0) else (0.0, grid.y);
      xRange := xr;
      yRange := yr;
      var step := MinR(xr.1 - xr.0, yr.1 - yr.0) / 2.0 / 8.0;
      xyStep := step;
      hStep := step / tanHalfFov;
      hRange := (step / tanHalfFov, 6.0 * (step / tanHalfFov));
    }

    /** Back to the origin, one altitude step up. */
    method Reset()
      modifies this
      ensures position == (0.0, 0.0) && altitude == hStep
    {
      position := (0.0, 0.0);
      altitude := hStep;
    }

    method SetPosition(pos: (real, real))
      modifies this
      ensures position == pos && altitude == old(altitude)
    {
      position := pos;
    }

    method SetAltitude(alt: real)
      modifies this
      ensures altitude == alt && position == old(position)
    {
      altitude := alt;
    }

    /** Metric coordinates to the index of the cell containing them: rows
        count down from the top edge (or from the middle row when centred),
        columns count right. */
    function ConvertXyIj(x: real, y: real, centered: bool): (c: Cell)
    {
      if centered then ConvertCentered(x, y) else ConvertPlain(x, y)
    }

    function ConvertPlain(x: real, y: real): Cell {
      Cell(Trunc(grid.shape.0 as real - y / grid.length), Trunc(x / grid.length))
    }

    function ConvertCentered(x: real, y: real): Cell {
      Cell(Trunc(-y / grid.length + (grid.shape.0 / 2) as real), Trunc(x / grid.length + (grid.shape.1 / 2) as real))
    }

    /** The column index grows with x and the row index shrinks as y grows. */
    lemma {:induction false} ConvertMonotonic(x: real, y: real, x': real, y': real, centered: bool)
      requires x <= x' && y <= y'
      ensures ConvertXyIj(x, y, centered).j <= ConvertXyIj(x', y', centered).j
      ensures ConvertXyIj(x', y', centered).i <= ConvertXyIj(x, y, centered).i
    {
      DivMonotonic(x, x', grid.length);
      DivMonotonic(y, y', grid.length);
      if centered {
        var centerI, centerJ := grid.shape.0 / 2, grid.shape.1 / 2;
        TruncMonotonic(x / grid.length + centerJ as real, x' / grid.length + centerJ as real);
        TruncMonotonic(-y' / grid.length + centerI as real, -y / grid.length + centerI as real);
      } else {
        TruncMonotonic(x / grid.length, x' / grid.length);
        TruncMonotonic(grid.shape.0 as real - y' / grid.length, grid.shape.0 as real - y / grid.length);
      }
    }

    /** The corner of cell (i, j) nearest the origin of its metric axes
        converts back to (i, j). */
    lemma {:induction false} ConvertCellCorner(i: int, j: int)
      ensures ConvertXyIj(j as real * grid.length, (grid.shape.0 - i) as real * grid.length, false) == Cell(i, j)
    {
      var len := grid.length;
      var x, y := j as real * len, (grid.shape.0 - i) as real * len;
      ScaleCancel(j as real, len);
      ScaleCancel((grid.shape.0 - i) as real, len);
      TruncAt(grid.shape.0 as real - y / len, i);
      TruncAt(x / len, j);
      assert ConvertPlain(x, y) == Cell(i, j);
      assert ConvertXyIj(x, y, false) == ConvertPlain(x, y);
      assert x == j as real * grid.length;
      assert y == (grid.shape.0 - i) as real * grid.length;
      assert ConvertXyIj(j as real * grid.length, (grid.shape.0 - i) as real * grid.length, false) == Cell(i, j);
    }

    /** The same on a centred grid, where the middle cell sits at the
        metric origin. */
    lemma {:induction false} ConvertCellCornerCentered(i: int, j: int)
      ensures ConvertXyIj((j - grid.shape.1 / 2) as real * grid.length, (grid.shape.0 / 2 - i) as real * grid.length, true) == Cell(i, j)
    {
      var len := grid.length;
      var centerI, centerJ := grid.shape.0 / 2, grid.shape.1 / 2;
      var x, y := (j - centerJ) as real * len, (centerI - i) as real * len;
      ScaleCancel((j - centerJ) as real, len);
      ScaleCancel((centerI - i) as real, len);
      NegDiv(y, len);
      var u, v := x / len, -y / len;
      assert u == (j - centerJ) as real;
      assert v == (i - centerI) as real;
      TruncAt(v + centerI as real, i);
      TruncAt(u + centerJ as real, j);
      assert ConvertCentered(x, y) == Cell(i, j);
      assert ConvertXyIj(x, y, true) == ConvertCentered(x, y);
      assert x == (j - grid.shape.1 / 2) as real * grid.length;
      assert y == (grid.shape.0 / 2 - i) as real * grid.length;
      assert ConvertXyIj((j - grid.shape.1 / 2) as real * grid.length, (grid.shape.0 / 2 - i) as real * grid.length, true) == Cell(i, j);
    }

    /** The half-width of the footprint seen from `altitude`, a whole number
        of cells (`round` is Python's, ties to even). */
    function FootprintHalfWidth(altitude: real): real {
      RoundHalfEven(altitude * tanHalfFov / grid.length) as real * grid.length
    }

    /** The footprint at `position` and `altitude` (the camera's own when
        not given), each bound clipped into the metric range. */
    function Extent(position: Option<(real, real)>, altitude: Option<real>): (e: (real, real, real, real))
      reads this
      requires xRange.0 <= xRange.1 && yRange.0 <= yRange.1
      ensures xRange.0 <= e.0 <= xRange.1 && xRange.0 <= e.1 <= xRange.1
      ensures yRange.0 <= e.2 <= yRange.1 && yRange.0 <= e.3 <= yRange.1
    {
      var pos := if position.Some? then position.value else this.position;
      var alt := if altitude.Some? then altitude.value else this.altitude;
      var dist := FootprintHalfWidth(alt);
      (ClipR(pos.0 - dist, xRange.0, xRange.1), ClipR(pos.0 + dist, xRange.0, xRange.1),
       ClipR(pos.1 - dist, yRange.0, yRange.1), ClipR(pos.1 + dist, yRange.0, yRange.1))
    }

    /** `get_range`: the clipped footprint, or all zeros when it clips to
        nothing in either axis. In index form the corner (x_min, y_min)
        gives (i_max, j_min) and the corner (x_max, y_max) gives
        (i_min, j_max). */
    function GetRange(position: Option<(real, real)>, altitude: Option<real>, indexForm: bool): (r: Footprint)
      reads this
      requires xRange.0 <= xRange.1 && yRange.0 <= yRange.1
      ensures r.Indices? <==> indexForm
      ensures var e := Extent(position, altitude);
        e.1 - e.0 == 0.0 || e.3 - e.2 == 0.0 ==> r == (if indexForm then Indices(0, 0, 0, 0) else Coords(0.0, 0.0, 0.0, 0.0))
      ensures var e := Extent(position, altitude);
        e.1 - e.0 != 0.0 && e.3 - e.2 != 0.0 && !indexForm ==> r == Coords(e.0, e.1, e.2, e.3)
      ensures var e := Extent(position, altitude);
        e.1 - e.0 != 0.0 && e.3 - e.2 != 0.0 && indexForm ==>
          && Cell(r.iMax, r.jMin) == ConvertXyIj(e.0, e.2, grid.center)
          && Cell(r.iMin, r.jMax) == ConvertXyIj(e.1, e.3, grid.center)
    {
      var e := Extent(position, altitude);
      if e.1 - e.0 == 0.0 || e.3 - e.2 == 0.0 then
        (if indexForm then Indices(0, 0, 0, 0) else Coords(0.0, 0.0, 0.0, 0.0))
      else if !indexForm then
        Coords(e.0, e.1, e.2, e.3)
      else
        var lower := ConvertXyIj(e.0, e.2, grid.center);
        var upper := ConvertXyIj(e.1, e.3, grid.center);
        Indices(upper.i, lower.i, lower.j, upper.j)
    }

    /** For a non-negative altitude the index footprint is a well-ordered
        rectangle: `i_min <= i_max` and `j_min <= j_max`. */
    lemma {:induction false} GetRangeOrdered(position: Option<(real, real)>, altitude: Option<real>)
      requires xRange.0 <= xRange.1 && yRange.0 <= yRange.1
      requires altitude.Some? ==> altitude.value >= 0.0
      requires altitude.None? ==> this.altitude >= 0.0
      requires tanHalfFov >= 0.0
      ensures GetRange(position, altitude, true).iMin <= GetRange(position, altitude, true).iMax
      ensures GetRange(position, altitude, true).jMin <= GetRange(position, altitude, true).jMax
    {
      var pos := if position.Some? then position.value else this.position;
      var alt := if altitude.Some? then altitude.value else this.altitude;
      var dist := FootprintHalfWidth(alt);
      NonNegativeHalfWidth(alt);
      ClipMonotonic(pos.0 - dist, pos.0 + dist, xRange.0, xRange.1);
      ClipMonotonic(pos.1 - dist, pos.1 + dist, yRange.0, yRange.1);
      var e := Extent(position, altitude);
      ConvertMonotonic(e.0, e.2, e.1, e.3, grid.center);
    }

    lemma NonNegativeHalfWidth(alt: real)
      requires alt >= 0.0 && tanHalfFov >= 0.0
      ensures FootprintHalfWidth(alt) >= 0.0
    {
      var q := alt * tanHalfFov / grid.length;
      assert alt * tanHalfFov >= 0.0 by { MulNonNegative(alt, tanHalfFov); }
      assert q >= 0.0;
      assert RoundHalfEven(q) >= 0;
      MulNonNegative(RoundHalfEven(q) as real, grid.length);
    }

    /** `get_observations`: the index footprint at the camera's own pose,
        the ground truth under it (Python slicing), and the observed map.
        `draws(r, c)` is the uniform random value drawn for cell (r, c) of
        the submap; the error rates are `sigmas` or, when absent, `sigma`
        of the altitude for both states. */
    function GetObservations(groundTruth: seq<seq<int>>, sigmas: Option<(real, real)>,
                             exp: real -> real, draws: (nat, nat) -> real): (r: (Corners, seq<seq<int>>))
      reads this
      requires IsRect(groundTruth)
      requires xRange.0 <= xRange.1 && yRange.0 <= yRange.1
      ensures var f := GetRange(None, None, true);
        r.0 == Corners(Cell(f.iMin, f.jMin), Cell(f.iMax, f.jMin), Cell(f.iMin, f.jMax), Cell(f.iMax, f.jMax))
      ensures var f := GetRange(None, None, true);
        var s := Sensor.Sigma(exp, altitude);
        var (s0, s1) := if sigmas.Some? then sigmas.value else (s, s);
        r.1 == Sensor.ObserveMap(Submap(groundTruth, f.iMin, f.iMax, f.jMin, f.jMax), draws, s0, s1)
    {
      var f := GetRange(None, None, true);
      var s := Sensor.Sigma(exp, altitude);
      var (s0, s1) := if sigmas.Some? then sigmas.value else (s, s);
      var corners := Corners(Cell(f.iMin, f.jMin), Cell(f.iMax, f.jMin), Cell(f.iMin, f.jMax), Cell(f.iMax, f.jMax));
      (corners, Sensor.ObserveMap(Submap(groundTruth, f.iMin, f.iMax, f.jMin, f.jMax), draws, s0, s1))
    }

    /** The pose `action` would lead to: a vertical move changes only the
        altitude, by one altitude step, and only while the result stays in
        `hRange`; "front"/"back" move y and "right"/"left" move x by one
        planar step, only while the result stays in the metric range; any
        other case keeps the current pose. */
    function XFuture(action: Action): (r: ((real, real), real))
      reads this
      ensures action == Hover ==> r == (position, altitude)
      ensures action == Up ==>
        r == (if altitude + hStep <= hRange.1 then (position, altitude + hStep) else (position, altitude))
      ensures action == Down ==>
        r == (if altitude - hStep >= hRange.0 then (position, altitude - hStep) else (position, altitude))
      ensures action == Front ==>
        r == (if position.1 + xyStep <= yRange.1 then ((position.0, position.1 + xyStep), altitude) else (position, altitude))
      ensures action == Back ==>
        r == (if position.1 - xyStep >= yRange.0 then ((position.0, position.1 - xyStep), altitude) else (position, altitude))
      ensures action == Right ==>
        r == (if position.0 + xyStep <= xRange.1 then ((position.0 + xyStep, position.1), altitude) else (position, altitude))
      ensures action == Left ==>
        r == (if position.0 - xyStep >= xRange.0 then ((position.0 - xyStep, position.1), altitude) else (position, altitude))
    {
      if action == Up && altitude + hStep <= hRange.1 then (position, altitude + hStep)
      else if action == Down && altitude - hStep >= hRange.0 then (position, altitude - hStep)
      else if action == Front && position.1 + xyStep <= yRange.1 then ((position.0, position.1 + xyStep), altitude)
      else if action == Back && position.1 - xyStep >= yRange.0 then ((position.0, position.1 - xyStep), altitude)
      else if action == Right && position.0 + xyStep <= xRange.1 then ((position.0 + xyStep, position.1), altitude)
      else if action == Left && position.0 - xyStep >= xRange.0 then ((position.0 - xyStep, position.1), altitude)
      else (position, altitude)
    }

    predicate InBounds(pose: ((real, real), real)) reads this {
      && xRange.0 <= pose.0.0 <= xRange.1
      && yRange.0 <= pose.0.1 <= yRange.1
      && hRange.0 <= pose.1 <= hRange.1
    }

    /** A pose inside the metric ranges and `hRange` stays inside them under
        every move, and each move changes at most one coordinate. */
    lemma {:induction false} XFutureStaysInBounds(action: Action)
      requires xyStep >= 0.0 && hStep >= 0.0
      requires InBounds((position, altitude))
      ensures InBounds(XFuture(action))
      ensures var r := XFuture(action);
        (r.0 == position) || (r.1 == altitude && (r.0.0 == position.0 || r.0.1 == position.1))
    {
    }

    /** The guard `permitted_actions` applies to `action` at pose `x`; as
        written, "front" and "back" test the x coordinate and "right" and
        "left" the y coordinate, and "hover" has no guard of its own. */
    predicate Permits(x: UavPosition, action: Action) reads this {
      match action
      case Up => x.altitude + hStep <= hRange.1
      case Down => x.altitude - hStep >= hRange.0
      case Front => x.position.0 - xyStep >= xRange.0
      case Back => x.position.0 + xyStep <= xRange.1
      case Right => x.position.1 + xyStep <= yRange.1
      case Left => x.position.1 - xyStep >= yRange.0
      case Hover => false
    }

    /** `permitted_actions`: "hover" first, then every other action of the
        camera whose guard holds at `x`, each once, in the iteration order
        of the action set. */
    method PermittedActions(x: UavPosition) returns (r: seq<Action>)
      ensures |r| >= 1 && r[0] == Hover
      ensures forall a, b :: 0 <= a < b < |r| ==> r[a] != r[b]
      ensures forall act :: act in r <==> act == Hover || Permits(x, act)
    {
      r := [Hover];
      var rest := actions;
      while rest != {}
        invariant rest <= actions
        invariant |r| >= 1 && r[0] == Hover
        invariant forall a, b :: 0 <= a < b < |r| ==> r[a] != r[b]
        invariant forall act :: act in r <==> act == Hover || (act !in rest && Permits(x, act))
        decreases |rest|
      {
        var act :| act in rest;
        if Permits(x, act) {
          r := r + [act];
        }
        rest := rest - {act};
      }
    }
  }

  lemma ClipMonotonic(v: real, w: real, lo: real, hi: real)
    requires v <= w && lo <= hi
    ensures ClipR(v, lo, hi) <= ClipR(w, lo, hi)
  {
  }

  lemma DivMonotonic(a: real, b: real, d: real)
    requires a <= b && d > 0.0
    ensures a / d <= b / d
  {
  }

  lemma NegDiv(y: real, c: real)
    requires c > 0.0
    ensures -y / c == -(y / c)
  {
  }

  lemma MulNonNegative(a: real, b: real)
    requires a >= 0.0 && b >= 0.0
    ensures a * b >= 0.0
  {
  }
}
