/** The terrain map: a metric meshgrid, one value per cell, the per-cell
    state probabilities, conversions between positions and cells, and
    row-major iteration over the cells. */
module Terrain {
  import opened Common
  import opened Grids
  import opened Records

  /** Python `math.ceil` on a real. */
  function Ceil(r: real): (n: int)
    ensures n as real - 1.0 < r <= n as real
  {
    -((-r).Floor)
  }

  /** The number of values of `np.arange(0, stop, step)`. */
  function ArangeCount(stop: real, step: real): (n: nat)
    requires step > 0.0
    ensures stop <= 0.0 ==> n == 0
    ensures stop > 0.0 ==> (n as real - 1.0) * step < stop <= n as real * step
  {
    if stop <= 0.0 then 0
    else
      CeilBounds(stop, step);
      Ceil(stop / step)
  }

  lemma CeilBounds(stop: real, step: real)
    requires step > 0.0 && stop > 0.0
    ensures Ceil(stop / step) >= 0
    ensures (Ceil(stop / step) as real - 1.0) * step < stop <= Ceil(stop / step) as real * step
  {
    var q := stop / step;
    var n := Ceil(q);
    assert q * step == stop;
    MulRight(q, n as real, step);
    MulRightStrict(n as real - 1.0, q, step);
  }

  /** The shape of a rectangular grid; a grid with no rows has shape (0, 0). */
  function Shape<T>(g: seq<seq<T>>): (nat, nat) { (Rows(g), Cols(g)) }

  class Terrain {
    const grid: Grid
    /** The `meshgrid(..., indexing="ij")` of metric coordinates. */
    var x: seq<seq<real>>
    var y: seq<seq<real>>
    /** The map; `None` stands for the one-dimensional empty array
        `np.array([])` that `set_map` leaves behind when it fails. */
    var mapData: Option<seq<seq<real>>>
    /** `probability[s][i][j]` is the probability of state s in cell (i, j). */
    var probability: seq<seq<seq<real>>>
    var xRange: (real, real)
    var yRange: (real, real)
    /** The position of the cell iterator. */
    var current: nat

    /** One cell per `length` metres in each axis, every map value and every
        state probability 0.5, ranges from 0 to the extent. */
    constructor (grid: Grid)
      ensures this.grid == grid
      ensures var rows, cols := ArangeCount(grid.x, grid.length), ArangeCount(grid.y, grid.length);
        && x == seq(rows, i => seq(cols, j => i as real * grid.length))
        && y == seq(rows, i => seq(cols, j => j as real * grid.length))
        && mapData == Some(Full(rows, cols, 0.5))
        && probability == [Full(rows, cols, 0.5), Full(rows, cols, 0.5)]
      ensures xRange == (0.0, grid.x) && yRange == (0.0, grid.y)
      ensures current == 0
    {
      this.grid := grid;
      var rows, cols := ArangeCount(grid.x, grid.length), ArangeCount(grid.y, grid.length);
      x := seq(rows, i => seq(cols, j => i as real * grid.length));
      y := seq(rows, i => seq(cols, j => j as real * grid.length));
      mapData := Some(Full(rows, cols, 0.5));
      probability := [Full(rows, cols, 0.5), Full(rows, cols, 0.5)];
      xRange := (0.0, grid.x);
      yRange := (0.0, grid.y);
      current := 0;
    }

    predicate InRanges(pos: (real, real)) reads this {
      xRange.0 <= pos.0 <= xRange.1 && yRange.0 <= pos.1 <= yRange.1
    }

    /** `pos2grid`: the cell containing a metric position, clamped into
        the map's shape; a position outside the ranges is a `ValueError`,
        and a one-dimensional map has no second-last axis (`IndexError`). */
    function Pos2Grid(pos: (real, real)): (r: Result<(int, int)>)
      reads this
      ensures !InRanges(pos) <==> r == Err(ValueError)
      ensures InRanges(pos) && mapData.None? ==> r == Err(IndexError)
      ensures r.Ok? ==> mapData.Some?
      ensures r.Ok? && Rows(mapData.value) > 0 ==> 0 <= r.value.0 < Rows(mapData.value)
      ensures r.Ok? && Cols(mapData.value) > 0 ==> 0 <= r.value.1 < Cols(mapData.value)
    {
      if !InRanges(pos) then Err(ValueError)
      else
        var gridX := Trunc((pos.0 - xRange.0) / grid.length);
        var gridY := Trunc((pos.1 - yRange.0) / grid.length);
        if mapData.None? then Err(IndexError)
        else
          var m := mapData.value;
          Ok((Min(Max(gridX, 0), Rows(m) - 1), Min(Max(gridY, 0), Cols(m) - 1)))
    }

    /** `grid2pos`: the metric position of the corner of a cell nearest the
        range origins. */
    function Grid2Pos(coords: (int, int)): (real, real) reads this {
      (xRange.0 + coords.0 as real * grid.length, yRange.0 + coords.1 as real * grid.length)
    }

    /** Converting a cell of the map to a position and back gives the cell,
        whenever that position lies in the ranges. */
    lemma {:induction false} Pos2GridOfGrid2Pos(coords: (int, int))
      requires mapData.Some?
      requires 0 <= coords.0 < Rows(mapData.value) && 0 <= coords.1 < Cols(mapData.value)
      requires InRanges(Grid2Pos(coords))
      ensures Pos2Grid(Grid2Pos(coords)) == Ok(coords)
    {
      var pos := Grid2Pos(coords);
      var len := grid.length;
      assert pos.0 - xRange.0 == coords.0 as real * len;
      assert pos.1 - yRange.0 == coords.1 as real * len;
      ScaleCancel(coords.0 as real, len);
      ScaleCancel(coords.1 as real, len);
      TruncAt((pos.0 - xRange.0) / len, coords.0);
      TruncAt((pos.1 - yRange.0) / len, coords.1);
      assert Pos2Grid(pos) == Ok((Min(Max(coords.0, 0), Rows(mapData.value) - 1), Min(Max(coords.1, 0), Cols(mapData.value) - 1)));
    }

    /** `set_map`: a map of the meshgrid's shape replaces only the map.
        Otherwise, with no new meshgrid the map is left as the empty 1-D
        array and the result is a `TypeError`; with one, meshgrid and map
        are replaced first, a shape disagreement is then a `ValueError`, and
        only on agreement are the ranges and the probabilities reset. */
    method SetMap(z: seq<seq<real>>, x: seq<seq<real>>, y: seq<seq<real>>) returns (err: Option<Error>)
      requires IsRect(z) && IsRect(x) && IsRect(y)
      modifies this
      ensures current == old(current)
      ensures Shape(old(this.x)) == Shape(z) ==>
        err.None? && mapData == Some(z) && this.x == old(this.x) && this.y == old(this.y)
        && xRange == old(xRange) && yRange == old(yRange) && probability == old(probability)
      ensures Shape(old(this.x)) != Shape(z) && (|x| == 0 || |y| == 0) ==>
        err == Some(TypeError) && mapData.None? && this.x == old(this.x) && this.y == old(this.y)
        && xRange == old(xRange) && yRange == old(yRange) && probability == old(probability)
      ensures Shape(old(this.x)) != Shape(z) && |x| != 0 && |y| != 0 ==>
        && this.x == x && this.y == y && mapData == Some(z)
        && (Shape(x) != Shape(y) || Shape(x) != Shape(z) ==>
              err == Some(ValueError) && xRange == old(xRange) && yRange == old(yRange) && probability == old(probability))
      ensures Shape(old(this.x)) != Shape(z) && |x| != 0 && |y| != 0 && Shape(x) == Shape(y) == Shape(z) ==>
        if |Flatten(x)| == 0 || |Flatten(y)| == 0 then
          err == Some(ValueError) && xRange == old(xRange) && yRange == old(yRange) && probability == old(probability)
        else
          && err.None?
          && xRange == (MinOf(Flatten(x)), MaxOf(Flatten(x)))
          && yRange == (MinOf(Flatten(y)), MaxOf(Flatten(y)))
          && probability == [Full(Rows(z), Cols(z), 0.5), Full(Rows(z), Cols(z), 0.5)]
    {
      mapData := None;
      if Shape(this.x) == Shape(z) {
        mapData := Some(z);
        return None;
      }
      if |x| != 0 && |y| != 0 {
        this.x := x;
        this.y := y;
        mapData := Some(z);
        if Shape(x) != Shape(y) || Shape(x) != Shape(z) {
          return Some(ValueError);
        }
        if |Flatten(x)| == 0 || |Flatten(y)| == 0 {
          return Some(ValueError);
        }
        xRange := (MinOf(Flatten(x)), MaxOf(Flatten(x)));
        yRange := (MinOf(Flatten(y)), MaxOf(Flatten(y)));
        probability := [Full(Rows(z), Cols(z), 0.5), Full(Rows(z), Cols(z), 0.5)];
        return None;
      }
      return Some(TypeError);
    }

    /** `__iter__`: restart the cell iterator. */
    method Iter()
      modifies this
      ensures current == 0
      ensures x == old(x) && y == old(y) && mapData == old(mapData) && probability == old(probability)
      ensures xRange == old(xRange) && yRange == old(yRange)
    {
      current := 0;
    }

    /** `__next__`: the cell `(k // cols, k % cols)` for the iterator
        position k, which then advances; `None` (StopIteration) once k has
        reached rows * cols. A one-dimensional map is an `IndexError`. */
    method Next() returns (r: Result<Option<Cell>>)
      modifies this
      ensures x == old(x) && y == old(y) && mapData == old(mapData) && probability == old(probability)
      ensures xRange == old(xRange) && yRange == old(yRange)
      ensures mapData.None? ==> r == Err(IndexError) && current == old(current)
      ensures mapData.Some? && old(current) >= Rows(mapData.value) * Cols(mapData.value) ==>
        r == Ok(None) && current == old(current)
      ensures mapData.Some? && old(current) < Rows(mapData.value) * Cols(mapData.value) ==>
        var cols := Cols(mapData.value);
        cols > 0 && r == Ok(Some(Cell(old(current) / cols, old(current) % cols))) && current == old(current) + 1
    {
      if mapData.None? {
        return Err(IndexError);
      }
      var rows, cols := Rows(mapData.value), Cols(mapData.value);
      if current >= rows * cols {
        return Ok(None);
      }
      var cell := Cell(current / cols, current % cols);
      current := current + 1;
      return Ok(Some(cell));
    }

    /** `for cell in terrain`: the iterator yields every cell of the map
        exactly once, in row-major order, and then stops. */
    method Cells() returns (cells: seq<Cell>)
      requires mapData.Some?
      modifies this
      ensures x == old(x) && y == old(y) && mapData == old(mapData) && probability == old(probability)
      ensures xRange == old(xRange) && yRange == old(yRange)
      ensures cells == RowMajor(0, Rows(mapData.value), 0, Cols(mapData.value))
      ensures current == Rows(mapData.value) * Cols(mapData.value)
    {
      Iter();
      var rows, cols := Rows(mapData.value), Cols(mapData.value);
      var n := rows * cols;
      cells := [];
      var next := Next();
      while next.Ok? && next.value.Some?
        invariant mapData == old(mapData) && x == old(x) && y == old(y) && probability == old(probability)
        invariant xRange == old(xRange) && yRange == old(yRange)
        invariant current <= n && next.Ok?
        invariant next.value.Some? ==>
          && 1 <= current && cols > 0 && |cells| == current - 1
          && next.value.value == Cell((current - 1) / cols, (current - 1) % cols)
        invariant next.value.None? ==> current == n && |cells| == current
        invariant forall k :: 0 <= k < |cells| ==> cols > 0 && cells[k] == Cell(k / cols, k % cols)
        decreases n - |cells|
      {
        cells := cells + [next.value.value];
        next := Next();
      }
      assert |cells| == n;
      assert Max(0, rows - 0) == rows && Max(0, cols - 0) == cols;
      assert forall k :: 0 <= k < |cells| ==> cells[k] == RowMajor(0, rows, 0, cols)[k];
    }
  }

  lemma MulRight(a: real, b: real, c: real)
    requires a <= b && c > 0.0
    ensures a * c <= b * c
  {
  }

  lemma MulRightStrict(a: real, b: real, c: real)
    requires a < b && c > 0.0
    ensures a * c < b * c
  {
  }
}
