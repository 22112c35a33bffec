/** The windowed loopy belief propagation of `src/mapper_LBP.py`: a scalar
    belief `P(occupied)` per cell, and a 5 x N0 x N1 message array whose
    channels 0-3 hold directional messages and whose channel 4 mirrors the
    belief. Each call updates only the observed footprint and the one-cell
    halo its messages are shifted into. */
module MapperLBP {
  import opened Common
  import opened Grids
  import opened Prob
  import opened Potential
  import opened Records
  import Sensor
  import Pairwise

  // ---------------------------------------------------------------------
  // Footprint corners (`get_indices`)
  // ---------------------------------------------------------------------

  /** The corner layout `get_indices` produces: `ul` the top-left index,
      `bl`/`ur` one past the last row/column, `br` both. */
  predicate IsFootprint(fp: Corners) {
    && fp.ul.i < fp.bl.i && fp.ul.j < fp.ur.j
    && fp.bl.j == fp.ul.j && fp.ur.i == fp.ul.i
    && fp.br == Cell(fp.bl.i, fp.ur.j)
  }

  /** `(v / grid_length).astype(int)` over a flattened coordinate array. */
  function Indices(v: seq<real>, len: real): (s: seq<int>)
    requires len != 0.0
    ensures |s| == |v|
    ensures forall k :: 0 <= k < |v| ==> s[k] == Trunc(v[k] / len)
  {
    seq(|v|, k requires 0 <= k < |v| => Trunc(v[k] / len))
  }

  /** `get_indices(x, y)`: the cell length is the step between the first two
      entries of the first row of `x`; both coordinate arrays are divided by
      it and truncated, and the corners are the least index and one past the
      greatest one on each axis (`GetIndicesBounds`). A first row shorter
      than two entries is an `IndexError`, a zero step makes numpy work with
      infinities, and an empty `y` has no minimum (`ValueError`). */
  function GetIndices(x: seq<seq<real>>, y: seq<seq<real>>): (r: Result<Corners>)
    requires IsRect(x) && IsRect(y)
    ensures (Rows(x) == 0 || Cols(x) < 2) <==> r == Err(IndexError)
    ensures Rows(x) > 0 && Cols(x) >= 2 && x[0][1] == x[0][0] <==> r == Err(NotANumber)
    ensures Rows(x) > 0 && Cols(x) >= 2 && x[0][1] != x[0][0] && (Rows(y) == 0 || Cols(y) == 0) <==>
              r == Err(ValueError)
    ensures r.Ok? ==> IsFootprint(r.value)
  {
    if Rows(x) == 0 || Cols(x) < 2 then Err(IndexError)
    else if x[0][1] == x[0][0] then Err(NotANumber)
    else if Rows(y) == 0 || Cols(y) == 0 then Err(ValueError)
    else
      var len := x[0][1] - x[0][0];
      FlattenLength(x);
      FlattenLength(y);
      MulPositiveInt(Rows(x), Cols(x));
      MulPositiveInt(Rows(y), Cols(y));
      var iv, jv := Indices(Flatten(x), len), Indices(Flatten(y), len);
      var iMin, iMax, jMin, jMax := MinOfInt(iv), MaxOfInt(iv), MinOfInt(jv), MaxOfInt(jv);
      Ok(Corners(Cell(iMin, jMin), Cell(iMax + 1, jMin), Cell(iMin, jMax + 1), Cell(iMax + 1, jMax + 1)))
  }

  /** The corners of a successful `get_indices` are tight: every row index
      lies in `[ul_i, bl_i)` and every column index in `[ul_j, ur_j)`, and
      both ends are reached. */
  lemma {:induction false} GetIndicesBounds(x: seq<seq<real>>, y: seq<seq<real>>)
    requires IsRect(x) && IsRect(y) && GetIndices(x, y).Ok?
    ensures var fp, len := GetIndices(x, y).value, x[0][1] - x[0][0];
            var iv, jv := Indices(Flatten(x), len), Indices(Flatten(y), len);
            && fp.ul.i in iv && fp.bl.i - 1 in iv
            && fp.ul.j in jv && fp.ur.j - 1 in jv
            && (forall k :: 0 <= k < |iv| ==> fp.ul.i <= iv[k] < fp.bl.i)
            && (forall k :: 0 <= k < |jv| ==> fp.ul.j <= jv[k] < fp.ur.j)
  {
    FlattenLength(x);
    FlattenLength(y);
    MulPositiveInt(Rows(x), Cols(x));
    MulPositiveInt(Rows(y), Cols(y));
  }

  lemma MulPositiveInt(a: nat, b: nat)
    requires a > 0 && b > 0
    ensures a * b > 0
  {
  }

  // ---------------------------------------------------------------------
  // The direction table of `_init_LBP_msgs`
  // ---------------------------------------------------------------------

  /** The four keys of `direction_to_slicing_data`. */
  datatype Direction = Up | Right | Down | Left

  /** The keys in the dictionary's insertion order, the order of each pass. */
  const Directions: seq<Direction> := [Up, Right, Down, Left]

  /** A Python slice `start:stop`. */
  datatype Span = Span(start: int, stop: int)

  /** A pair of slices over rows and columns. */
  datatype Window = Window(rows: Span, cols: Span)

  /** The channels of the `product_slice` entry: every channel but the one
      holding the message from the neighbour being sent to, then the belief. */
  function ProductChannels(d: Direction): (ch: seq<nat>)
    ensures |ch| == 4 && forall t :: 0 <= t < 4 ==> ch[t] < 5
  {
    match d
    case Up => [1, 2, 3, 4]
    case Right => [0, 2, 3, 4]
    case Down => [0, 1, 3, 4]
    case Left => [0, 1, 2, 4]
  }

  /** The rows and columns of the `product_slice` entry: the footprint
      itself, for every direction. */
  function ProductWindow(fp: Corners): Window {
    Window(Span(fp.ul.i, fp.bl.i), Span(fp.ul.j, fp.ur.j))
  }

  /** The `read_slice` entry, relative to the footprint: it drops the first
      row (up) or column (left) when the footprint touches the top or left
      border, and the last row (down) or column (right) when it touches the
      bottom or right border. */
  function ReadWindow(d: Direction, fp: Corners, n: (nat, nat)): Window {
    var h, w := fp.bl.i - fp.ul.i, fp.ur.j - fp.ul.j;
    match d
    case Up => Window(Span(if fp.ul.i == 0 then 1 else 0, h), Span(0, w))
    case Right => Window(Span(0, h), Span(0, if fp.ur.j == n.1 then w - 1 else w))
    case Down => Window(Span(0, if fp.bl.i == n.0 then h - 1 else h), Span(0, w))
    case Left => Window(Span(0, h), Span(if fp.ul.j == 0 then 1 else 0, w))
  }

  /** The channel of the `write_slice` entry. */
  function WriteChannel(d: Direction): nat {
    match d
    case Up => 2
    case Right => 3
    case Down => 0
    case Left => 1
  }

  /** The rows and columns of the `write_slice` entry: the footprint shifted
      one cell in the direction of flow, clamped at 0 and at the grid size. */
  function WriteWindow(d: Direction, fp: Corners, n: (nat, nat)): Window {
    match d
    case Up => Window(Span(Max(0, fp.ul.i - 1), Min(n.0, fp.bl.i - 1)), Span(Max(0, fp.ul.j), Min(n.1, fp.br.j)))
    case Right => Window(Span(Max(0, fp.ul.i), Min(n.0, fp.bl.i)), Span(Max(0, fp.ul.j + 1), Min(n.1, fp.br.j + 1)))
    case Down => Window(Span(Max(0, fp.ul.i + 1), Min(n.0, fp.bl.i + 1)), Span(Max(0, fp.ul.j), Min(n.1, fp.br.j)))
    case Left => Window(Span(Max(0, fp.ul.i), Min(n.0, fp.bl.i)), Span(Max(0, fp.ul.j - 1), Min(n.1, fp.br.j - 1)))
  }

  /** The direction whose messages are written into channel `c`. */
  function WriterOf(c: nat): Direction
    requires c < 4
  {
    if c == 0 then Down else if c == 1 then Left else if c == 2 then Up else Right
  }

  /** The place of `d` in `Directions`. */
  function Position(d: Direction): nat {
    match d
    case Up => 0
    case Right => 1
    case Down => 2
    case Left => 3
  }

  function Opposite(d: Direction): Direction {
    match d
    case Up => Down
    case Right => Left
    case Down => Up
    case Left => Right
  }

  /** The (row, column) step from a sending cell to the cell its message of
      direction `d` is written at. */
  function Delta(d: Direction): (int, int) {
    match d
    case Up => (-1, 0)
    case Right => (0, 1)
    case Down => (1, 0)
    case Left => (0, -1)
  }

  /** Channel discipline of the table: each direction writes its own
      directional channel, at the place `Directions` gives it, and its
      product takes the belief channel last and, in increasing order, every
      directional channel but the one the opposite direction writes, i.e.
      the message that came from the neighbour being sent to. */
  lemma {:induction false} ChannelDiscipline(d: Direction)
    ensures WriteChannel(d) < 4 && WriterOf(WriteChannel(d)) == d
    ensures Directions[Position(d)] == d
    ensures |ProductChannels(d)| == 4 && ProductChannels(d)[3] == 4
    ensures forall t, u :: 0 <= t < u < 4 ==> ProductChannels(d)[t] < ProductChannels(d)[u]
    ensures forall ch :: 0 <= ch < 5 ==> (ch in ProductChannels(d) <==> ch != WriteChannel(Opposite(d)))
    ensures Delta(Opposite(d)) == (-Delta(d).0, -Delta(d).1)
  {
    match d
    case Up =>
    case Right =>
    case Down =>
    case Left =>
  }

  // ---------------------------------------------------------------------
  // Slices resolved against the arrays they index
  // ---------------------------------------------------------------------

  /** A resolved rectangle `[r0, r1) x [c0, c1)`. */
  datatype Region = Region(r0: nat, r1: nat, c0: nat, c1: nat)

  function Height(r: Region): int { r.r1 - r.r0 }
  function Width(r: Region): int { r.c1 - r.c0 }

  predicate InRegion(r: Region, i: int, j: int) {
    r.r0 <= i < r.r1 && r.c0 <= j < r.c1
  }

  /** The cells a window selects in an array of `rows` x `cols`. */
  function Resolve(w: Window, rows: nat, cols: nat): (r: Region)
    ensures r.r0 <= r.r1 <= rows && r.c0 <= r.c1 <= cols
  {
    var (r0, r1) := SliceBounds(w.rows.start, w.rows.stop, rows);
    var (c0, c1) := SliceBounds(w.cols.start, w.cols.stop, cols);
    Region(r0, r1, c0, c1)
  }

  /** Where one direction's messages are read from, in the coordinates of
      the freshly computed `norm_msg_1`, and written to, in the grid's. */
  datatype Route = Route(read: Region, write: Region)

  /** All slices of one propagation call: the product region in the grid
      and the route of every direction. */
  datatype Plan = Plan(product: Region, up: Route, right: Route, down: Route, left: Route)

  function RouteOf(p: Plan, d: Direction): Route {
    match d
    case Up => p.up
    case Right => p.right
    case Down => p.down
    case Left => p.left
  }

  /** The product region of a footprint: `msgs[..., ul_i:bl_i, ul_j:ur_j]`. */
  function ProductRegion(fp: Corners, n: (nat, nat)): (r: Region)
    ensures r.r1 <= n.0 && r.c1 <= n.1
  {
    Resolve(ProductWindow(fp), n.0, n.1)
  }

  /** The read slice resolved against `norm_msg_1`, which has the product
      region's shape, and the write slice resolved against the grid. */
  function RouteFor(d: Direction, fp: Corners, n: (nat, nat)): (r: Route)
    ensures RouteShape(r, ProductRegion(fp, n), n)
  {
    var p := ProductRegion(fp, n);
    Route(Resolve(ReadWindow(d, fp, n), p.r1 - p.r0, p.c1 - p.c0), Resolve(WriteWindow(d, fp, n), n.0, n.1))
  }

  predicate RouteShape(r: Route, product: Region, n: (nat, nat)) {
    ReadsWithin(r, product) && r.write.r1 <= n.0 && r.write.c1 <= n.1
  }

  /** The read region lies inside an array of the product region's shape. */
  predicate ReadsWithin(r: Route, product: Region) {
    r.read.r1 <= Height(product) && r.read.c1 <= Width(product)
  }

  /** Every region of a plan lies inside the array it indexes. */
  predicate PlanShape(p: Plan, n: (nat, nat)) {
    && p.product.r1 <= n.0 && p.product.c1 <= n.1
    && RouteShape(p.up, p.product, n) && RouteShape(p.right, p.product, n)
    && RouteShape(p.down, p.product, n) && RouteShape(p.left, p.product, n)
  }

  /** The slices `direction_to_slicing_data` gives for a footprint. */
  function PlanOf(fp: Corners, n: (nat, nat)): (p: Plan)
    ensures PlanShape(p, n)
  {
    Plan(ProductRegion(fp, n), RouteFor(Up, fp, n), RouteFor(Right, fp, n), RouteFor(Down, fp, n), RouteFor(Left, fp, n))
  }

  /** numpy accepts `target[write] = value[read]` when on each axis the
      extents agree or the value's extent is 1 (it is then repeated);
      anything else is a `ValueError`. */
  predicate Fits(r: Route) {
    && (Height(r.read) == Height(r.write) || Height(r.read) == 1)
    && (Width(r.read) == Width(r.write) || Width(r.read) == 1)
  }

  /** Every direction's buffered assignment is well-formed. */
  predicate AllFit(p: Plan) {
    Fits(p.up) && Fits(p.right) && Fits(p.down) && Fits(p.left)
  }

  /** After the first `t + 1` directions of a pass, the channels holding
      fresh messages are those after `t` plus the one direction `t` writes;
      after all four every directional channel is fresh. */
  lemma ScheduleStep(t: nat)
    requires t < 4
    ensures forall c :: 0 <= c < 4 ==>
      (Position(WriterOf(c)) < t + 1 <==> Position(WriterOf(c)) < t || c == WriteChannel(Directions[t]))
    ensures forall c :: 0 <= c < 4 ==> Position(WriterOf(c)) < 4
  {
    ChannelDiscipline(Directions[t]);
  }

  lemma AllFitByDirection(p: Plan)
    ensures AllFit(p) <==> forall u :: 0 <= u < 4 ==> Fits(RouteOf(p, Directions[u]))
  {
    assert RouteOf(p, Directions[0]) == p.up && RouteOf(p, Directions[1]) == p.right;
    assert RouteOf(p, Directions[2]) == p.down && RouteOf(p, Directions[3]) == p.left;
  }

  /** The grid cell whose freshly computed message ends up at the written
      cell (i, j): the matching cell of the read region, shifted back to
      grid coordinates; a read extent of 1 is repeated along its axis. */
  function SourceCell(product: Region, route: Route, i: int, j: int): (c: Cell)
    requires ReadsWithin(route, product) && Fits(route) && InRegion(route.write, i, j)
    ensures InRegion(product, c.i, c.j)
  {
    var rd, wr := route.read, route.write;
    Cell(product.r0 + rd.r0 + (if Height(rd) == 1 then 0 else i - wr.r0),
         product.c0 + rd.c0 + (if Width(rd) == 1 then 0 else j - wr.c0))
  }

  /** A footprint that lies inside the grid. */
  predicate InsideGrid(fp: Corners, n: (nat, nat)) {
    IsFootprint(fp) && 0 <= fp.ul.i && fp.bl.i <= n.0 && 0 <= fp.ul.j && fp.ur.j <= n.1
  }

  /** For a footprint inside the grid, the product region is the footprint,
      and the read and write regions of every direction have equal extents,
      so every buffered assignment is well-formed without repetition. */
  lemma {:induction false} SlicesAgree(d: Direction, fp: Corners, n: (nat, nat))
    requires InsideGrid(fp, n)
    ensures PlanOf(fp, n).product == Region(fp.ul.i, fp.bl.i, fp.ul.j, fp.ur.j)
    ensures Height(RouteOf(PlanOf(fp, n), d).read) == Height(RouteOf(PlanOf(fp, n), d).write)
    ensures Width(RouteOf(PlanOf(fp, n), d).read) == Width(RouteOf(PlanOf(fp, n), d).write)
    ensures Fits(RouteOf(PlanOf(fp, n), d)) && AllFit(PlanOf(fp, n))
  {
    var p := ProductRegion(fp, n);
    assert p == Region(fp.ul.i, fp.bl.i, fp.ul.j, fp.ur.j);
    var r := RouteFor(d, fp, n);
    assert RouteOf(PlanOf(fp, n), d) == r;
    RouteAgrees(Up, fp, n);
    RouteAgrees(Right, fp, n);
    RouteAgrees(Down, fp, n);
    RouteAgrees(Left, fp, n);
  }

  lemma RouteAgrees(d: Direction, fp: Corners, n: (nat, nat))
    requires InsideGrid(fp, n)
    ensures Height(RouteFor(d, fp, n).read) == Height(RouteFor(d, fp, n).write)
    ensures Width(RouteFor(d, fp, n).read) == Width(RouteFor(d, fp, n).write)
  {
    assert ProductRegion(fp, n) == Region(fp.ul.i, fp.bl.i, fp.ul.j, fp.ur.j);
  }

  /** For a footprint inside the grid, direction `d` writes at exactly the
      grid cells one step of `Delta(d)` away from a footprint cell, and the
      message written there is the one computed at that footprint cell. */
  lemma {:induction false} WriteIsShiftedFootprint(d: Direction, fp: Corners, n: (nat, nat), i: int, j: int)
    requires InsideGrid(fp, n)
    ensures Fits(RouteFor(d, fp, n))
    ensures InRegion(RouteFor(d, fp, n).write, i, j) <==>
              0 <= i < n.0 && 0 <= j < n.1 &&
              IsCellOf(fp, i - Delta(d).0, j - Delta(d).1)
    ensures InRegion(RouteFor(d, fp, n).write, i, j) ==>
              SourceCell(ProductRegion(fp, n), RouteFor(d, fp, n), i, j) == Cell(i - Delta(d).0, j - Delta(d).1)
  {
    RouteAgrees(d, fp, n);
    assert ProductRegion(fp, n) == Region(fp.ul.i, fp.bl.i, fp.ul.j, fp.ur.j);
  }

  /** The plan of a footprint holds the footprint's product region and the
      route `RouteFor` gives each direction. */
  lemma {:induction false} PlanRoutes(fp: Corners, n: (nat, nat), d: Direction)
    ensures PlanOf(fp, n).product == ProductRegion(fp, n)
    ensures RouteOf(PlanOf(fp, n), d) == RouteFor(d, fp, n)
  {
  }

  /** (i, j) lies in the footprint rectangle `[ul_i, bl_i) x [ul_j, ur_j)`. */
  predicate IsCellOf(fp: Corners, i: int, j: int) {
    fp.ul.i <= i < fp.bl.i && fp.ul.j <= j < fp.ur.j
  }

  // ---------------------------------------------------------------------
  // One message and one belief
  // ---------------------------------------------------------------------

  /** `a / (a + b)` for `a >= 0` and `b > 0` lies in [0, 1), strictly above
      0 when `a` is. */
  lemma Fraction(a: real, b: real)
    requires 0.0 <= a && 0.0 < b
    ensures 0.0 <= a / (a + b) < 1.0
    ensures a > 0.0 ==> a / (a + b) > 0.0
    ensures a / (a + b) * (a + b) == a
  {
    var r := a / (a + b);
    assert r * (a + b) == a;
    assert (1.0 - r) * (a + b) == b;
    PositiveFactor(1.0 - r, a + b);
    if a > 0.0 {
      PositiveFactor(r, a + b);
    } else {
      assert r * (a + b) == 0.0;
      ZeroFactor(r, a + b);
    }
  }

  lemma PositiveFactor(x: real, y: real)
    requires y > 0.0 && x * y > 0.0
    ensures x > 0.0
  {
  }

  lemma ZeroFactor(x: real, y: real)
    requires y > 0.0 && x * y == 0.0
    ensures x == 0.0
  {
  }

  /** The occupied component of `psi @ [mul_0, mul_1]`, normalised: the
      message a cell sends, from the values `v` of its product channels
      (`mul_0 = prod(1 - v)`, `mul_1 = prod(v)`). */
  function NormMsg(psi: Psi, v: seq<real>): (m: real)
    requires IsPositive(psi) && IsMessageVector(v)
    ensures 0.0 < m < 1.0
  {
    MessageVectorProducts(v);
    var mul0, mul1 := Prod(Complement(v)), Prod(v);
    PotentialApplied(psi, mul0, mul1);
    var msg0, msg1 := psi.p00 * mul0 + psi.p01 * mul1, psi.p10 * mul0 + psi.p11 * mul1;
    Fraction(msg1, msg0);
    assert msg0 + msg1 == msg1 + msg0;
    msg1 / (msg0 + msg1)
  }

  /** A positive potential maps two non-negative weights that do not both
      vanish to two positive ones. */
  lemma PotentialApplied(psi: Psi, mul0: real, mul1: real)
    requires IsPositive(psi) && 0.0 <= mul0 && 0.0 <= mul1 && mul0 + mul1 > 0.0
    ensures psi.p00 * mul0 + psi.p01 * mul1 > 0.0
    ensures psi.p10 * mul0 + psi.p11 * mul1 > 0.0
  {
    MulNonNegative(psi.p00, mul0);
    MulNonNegative(psi.p01, mul1);
    MulNonNegative(psi.p10, mul0);
    MulNonNegative(psi.p11, mul1);
    if mul0 > 0.0 {
      MulPositive(psi.p00, mul0);
      MulPositive(psi.p10, mul0);
    } else {
      MulPositive(psi.p01, mul1);
      MulPositive(psi.p11, mul1);
    }
  }

  /** Under the "equal" potential every message is 0.5, whatever the cell
      received. */
  lemma {:induction false} NormMsgOfEqualPotential(v: seq<real>)
    requires IsMessageVector(v)
    ensures NormMsg(EqualPsi, v) == 0.5
  {
    MessageVectorProducts(v);
    var mul0, mul1 := Prod(Complement(v)), Prod(v);
    var half := 0.5 * mul0 + 0.5 * mul1;
    assert half > 0.0;
    assert NormMsg(EqualPsi, v) == half / (half + half);
    var r := half / (half + half);
    Fraction(half, half);
    assert r * (half + half) == 0.5 * (half + half);
    MulCancel(r, 0.5, half + half);
  }

  /** The fixed data of one propagation call: the grid shape, the resolved
      slices, the pairwise potential and the belief grid the call starts
      from. */
  datatype Setting = Setting(n: (nat, nat), plan: Plan, psi: Psi, beliefs: seq<seq<real>>)

  predicate Admissible(s: Setting) {
    && PlanShape(s.plan, s.n) && IsPositive(s.psi)
    && |s.beliefs| == s.n.0
    && (forall r :: 0 <= r < s.n.0 ==> |s.beliefs[r]| == s.n.1)
    && (forall r, c :: 0 <= r < s.n.0 && 0 <= c < s.n.1 ==> 0.0 <= s.beliefs[r][c] <= 1.0)
  }

  /** `msgs[c, i, j]` after `k` passes of a call: channel 4 holds the
      starting belief throughout; a directional channel starts at 0.5 and
      afterwards holds, at the cells its direction writes, the message the
      source cell computed from the values of the pass before, and 0.5
      elsewhere. (Where a direction's assignment does not fit, the call
      fails in its first pass, so the value given there is never seen.) */
  function Msg(s: Setting, k: nat, c: nat, i: nat, j: nat): (v: real)
    requires Admissible(s) && c < 5 && i < s.n.0 && j < s.n.1
    ensures c < 4 ==> 0.0 < v < 1.0
    ensures c == 4 ==> v == s.beliefs[i][j]
    decreases k, 0
  {
    if c == 4 then s.beliefs[i][j]
    else if k == 0 then 0.5
    else
      var d := WriterOf(c);
      var route := RouteOf(s.plan, d);
      if Fits(route) && InRegion(route.write, i, j) then
        var src := SourceCell(s.plan.product, route, i, j);
        NormMsg(s.psi, Gathered(s, k - 1, d, src.i, src.j))
      else 0.5
  }

  /** `msgs[product_channels, i, j]` after `k` passes: the values direction
      `d` multiplies at cell (i, j). */
  function Gathered(s: Setting, k: nat, d: Direction, i: nat, j: nat): (v: seq<real>)
    requires Admissible(s) && i < s.n.0 && j < s.n.1
    ensures |v| == 4 && IsMessageVector(v)
    decreases k, 1
  {
    var ch := ProductChannels(d);
    [Msg(s, k, ch[0], i, j), Msg(s, k, ch[1], i, j), Msg(s, k, ch[2], i, j), Msg(s, k, ch[3], i, j)]
  }

  /** The belief written at a footprint cell after `k` passes:
      `prod(msgs) / (prod(msgs) + prod(1 - msgs))` over all five channels. */
  function Belief(s: Setting, k: nat, i: nat, j: nat): (b: real)
    requires Admissible(s) && i < s.n.0 && j < s.n.1
    ensures 0.0 <= b <= 1.0
  {
    OccupancyOf([Msg(s, k, 0, i, j), Msg(s, k, 1, i, j), Msg(s, k, 2, i, j), Msg(s, k, 3, i, j), Msg(s, k, 4, i, j)])
  }

  /** The message rule for a footprint inside the grid: after a pass, the
      channel direction `d` writes holds at (i, j) the message the
      neighbour (i, j) - Delta(d) computed from its other channels, when
      that neighbour is a footprint cell; otherwise it holds 0.5. */
  lemma {:induction false} MessageRule(s: Setting, fp: Corners, k: nat, d: Direction, i: nat, j: nat)
    requires Admissible(s) && InsideGrid(fp, s.n) && i < s.n.0 && j < s.n.1
    requires s.plan.product == ProductRegion(fp, s.n) && RouteOf(s.plan, d) == RouteFor(d, fp, s.n)
    ensures var si, sj := i - Delta(d).0, j - Delta(d).1;
            if IsCellOf(fp, si, sj) then Msg(s, k + 1, WriteChannel(d), i, j) == NormMsg(s.psi, Gathered(s, k, d, si, sj))
            else Msg(s, k + 1, WriteChannel(d), i, j) == 0.5
  {
    ChannelDiscipline(d);
    WriteIsShiftedFootprint(d, fp, s.n, i, j);
    if InRegion(RouteOf(s.plan, d).write, i, j) {
      MsgInsideWrites(s, k, d, i, j);
    } else {
      MsgOutsideWrites(s, k + 1, WriteChannel(d), i, j);
    }
  }

  /** A directional channel away from every cell its direction writes keeps
      the 0.5 of the reset. */
  lemma {:induction false} MsgOutsideWrites(s: Setting, k: nat, c: nat, i: nat, j: nat)
    requires Admissible(s) && c < 4 && i < s.n.0 && j < s.n.1
    requires !(Fits(RouteOf(s.plan, WriterOf(c))) && InRegion(RouteOf(s.plan, WriterOf(c)).write, i, j))
    ensures Msg(s, k, c, i, j) == 0.5
  {
  }

  /** Inside the region direction `d` writes, the next pass holds the
      normalised message of the source cell's gathered channels. */
  lemma {:induction false} MsgInsideWrites(s: Setting, k: nat, d: Direction, i: nat, j: nat)
    requires Admissible(s) && i < s.n.0 && j < s.n.1
    requires Fits(RouteOf(s.plan, d)) && InRegion(RouteOf(s.plan, d).write, i, j)
    ensures var src := SourceCell(s.plan.product, RouteOf(s.plan, d), i, j);
      Msg(s, k + 1, WriteChannel(d), i, j) == NormMsg(s.psi, Gathered(s, k, d, src.i, src.j))
  {
    ChannelDiscipline(d);
  }

  /** `m[ch, i, j]`: the values of four channels at one cell. */
  function ChannelsAt(m: array3<real>, ch: seq<nat>, i: nat, j: nat): (v: seq<real>)
    reads m
    requires |ch| == 4 && (forall t :: 0 <= t < 4 ==> ch[t] < m.Length0) && i < m.Length1 && j < m.Length2
    ensures |v| == 4 && forall t :: 0 <= t < 4 ==> v[t] == m[ch[t], i, j]
  {
    [m[ch[0], i, j], m[ch[1], i, j], m[ch[2], i, j], m[ch[3], i, j]]
  }

  /** An array holding `k` passes holds the channels any direction gathers. */
  lemma {:induction false} HeldGathered(m: array3<real>, s: Setting, k: nat, d: Direction, i: nat, j: nat)
    requires Holds(m, s, k) && i < s.n.0 && j < s.n.1
    ensures Gathered(s, k, d, i, j) == ChannelsAt(m, ProductChannels(d), i, j)
  {
    ChannelDiscipline(d);
  }

  /** With the "equal" potential every directional message stays 0.5. */
  lemma {:induction false} EqualPotentialMessages(s: Setting, k: nat, c: nat, i: nat, j: nat)
    requires Admissible(s) && s.psi == EqualPsi && c < 4 && i < s.n.0 && j < s.n.1
    ensures Msg(s, k, c, i, j) == 0.5
  {
    if k > 0 {
      var d := WriterOf(c);
      var route := RouteOf(s.plan, d);
      if Fits(route) && InRegion(route.write, i, j) {
        var src := SourceCell(s.plan.product, route, i, j);
        NormMsgOfEqualPotential(Gathered(s, k - 1, d, src.i, src.j));
      }
    }
  }

  /** With the "equal" potential a propagation call writes back every
      footprint belief unchanged. */
  lemma {:induction false} EqualPotentialBelief(s: Setting, k: nat, i: nat, j: nat)
    requires Admissible(s) && s.psi == EqualPsi && i < s.n.0 && j < s.n.1
    ensures Belief(s, k, i, j) == s.beliefs[i][j]
  {
    EqualPotentialMessages(s, k, 0, i, j);
    EqualPotentialMessages(s, k, 1, i, j);
    EqualPotentialMessages(s, k, 2, i, j);
    EqualPotentialMessages(s, k, 3, i, j);
    var v := [Msg(s, k, 0, i, j), Msg(s, k, 1, i, j), Msg(s, k, 2, i, j), Msg(s, k, 3, i, j), Msg(s, k, 4, i, j)];
    assert v == [0.5, 0.5, 0.5, 0.5, s.beliefs[i][j]];
    OccupancyOfUniform(v);
  }

  // ---------------------------------------------------------------------
  // `update_belief_OG`, sigma path
  // ---------------------------------------------------------------------

  /** The constant `update_belief_OG` adds to the denominator. */
  const Epsilon: real := 0.0000000001

  /** `(likelihood_m_zero, likelihood_m_one)` of one observed value: the
      probability of reading `z` if the cell is free, and if it is occupied. */
  function Likelihoods(z: int, sigma: real): (l: (real, real)) {
    if z == 0 then (1.0 - sigma, sigma) else (sigma, 1.0 - sigma)
  }

  /** The two likelihoods of an observation sum to 1, lie in [0, 1] when
      sigma does, and favour the state that was read when sigma < 0.5. */
  lemma {:induction false} LikelihoodsSum(z: int, sigma: real)
    ensures Likelihoods(z, sigma).0 + Likelihoods(z, sigma).1 == 1.0
    ensures 0.0 <= sigma <= 1.0 ==> 0.0 <= Likelihoods(z, sigma).0 <= 1.0 && 0.0 <= Likelihoods(z, sigma).1 <= 1.0
    ensures sigma < 0.5 ==> (z == 0 <==> Likelihoods(z, sigma).0 > Likelihoods(z, sigma).1)
  {
  }

  /** `posterior_m_one / (posterior_m_zero + posterior_m_one + epsilon)` for
      a cell of prior belief `b`. */
  function Posterior(l0: real, l1: real, b: real): (r: real)
    requires 0.0 <= l0 <= 1.0 && 0.0 <= l1 <= 1.0 && 0.0 <= b <= 1.0
    ensures 0.0 <= r < 1.0
    ensures r * (l0 * (1.0 - b) + l1 * b + Epsilon) == l1 * b
  {
    MulNonNegative(l0, 1.0 - b);
    MulUnit(l1, b);
    var p0, p1 := l0 * (1.0 - b), l1 * b;
    Fraction(p1, p0 + Epsilon);
    assert p1 + (p0 + Epsilon) == p0 + p1 + Epsilon;
    p1 / (p0 + p1 + Epsilon)
  }

  /** An observation both states explain equally well changes a belief
      only by the bias of `epsilon`: the posterior is `b / (1 + 2 epsilon)`. */
  lemma {:induction false} UninformativeObservation(z: int, b: real)
    requires 0.0 <= b <= 1.0
    ensures Likelihoods(z, 0.5) == (0.5, 0.5)
    ensures Posterior(0.5, 0.5, b) * (1.0 + 2.0 * Epsilon) == b
  {
    var r := Posterior(0.5, 0.5, b);
    assert r * (0.5 + Epsilon) == 0.5 * b;
  }

  /** `z` combines with the belief region and the result can be stored back
      into it: on each axis the extents agree or `z`'s is 1. */
  predicate ShapeFits(z: seq<seq<int>>, r: Region) {
    (Rows(z) == Height(r) || Rows(z) == 1) && (Cols(z) == Width(r) || Cols(z) == 1)
  }

  /** The new belief `update_belief_OG` writes at cell (i, j) of the region
      `r`, from the observation numpy pairs with it and the old belief `b`. */
  function ObservedBelief(z: seq<seq<int>>, sigma: real, r: Region, i: int, j: int, b: real): (p: real)
    requires IsRect(z) && ShapeFits(z, r) && InRegion(r, i, j)
    requires 0.0 <= sigma <= 1.0 && 0.0 <= b <= 1.0
    ensures 0.0 <= p < 1.0
  {
    var zv := z[Along(Rows(z), i - r.r0)][Along(Cols(z), j - r.c0)];
    LikelihoodsSum(zv, sigma);
    var l := Likelihoods(zv, sigma);
    Posterior(l.0, l.1, b)
  }

  /** The failure of `update_belief_OG` once the corners are known: the
      likelihood assertion fails for a non-empty observation when sigma is
      not a probability, and numpy rejects shapes that do not fit. */
  function ObservationCheck(z: seq<seq<int>>, sigma: real, r: Region): Option<Error> {
    if Rows(z) > 0 && Cols(z) > 0 && !(0.0 <= sigma <= 1.0) then Some(AssertionError)
    else if !ShapeFits(z, r) then Some(ValueError)
    else None
  }

  /** The grid of values an array holds. */
  ghost function GridOf(a: array2<real>): (g: seq<seq<real>>)
    reads a
    ensures |g| == a.Length0 && (forall r :: 0 <= r < a.Length0 ==> |g[r]| == a.Length1)
    ensures forall r, c :: 0 <= r < a.Length0 && 0 <= c < a.Length1 ==> g[r][c] == a[r, c]
  {
    seq(a.Length0, r reads a requires 0 <= r < a.Length0 =>
      seq(a.Length1, c reads a requires 0 <= c < a.Length1 => a[r, c]))
  }

  /** The message array `m` holds the values of `k` passes under `s`. */
  ghost predicate Holds(m: array3<real>, s: Setting, k: nat)
    reads m
  {
    && Admissible(s) && m.Length0 == 5 && m.Length1 == s.n.0 && m.Length2 == s.n.1
    && forall c, i, j :: 0 <= c < 5 && 0 <= i < s.n.0 && 0 <= j < s.n.1 ==> m[c, i, j] == Msg(s, k, c, i, j)
  }

  /** `OccupancyMap` of `src/mapper_LBP.py`. */
  class OccupancyMap {
    const n: (nat, nat)
    /** `map_beliefs`: P(occupied) per cell. */
    const mapBeliefs: array2<real>
    var msgs: array3<real>
    var msgsBuffer: array3<real>
    /** `None` is the empty array the map starts with. */
    var lastObservations: Option<seq<seq<int>>>

    ghost predicate Valid()
      reads this, mapBeliefs
    {
      && mapBeliefs.Length0 == n.0 && mapBeliefs.Length1 == n.1
      && msgs.Length0 == 5 && msgs.Length1 == n.0 && msgs.Length2 == n.1
      && msgsBuffer.Length0 == 5 && msgsBuffer.Length1 == n.0 && msgsBuffer.Length2 == n.1
      && msgs != msgsBuffer
      && (forall i, j :: 0 <= i < n.0 && 0 <= j < n.1 ==> 0.0 <= mapBeliefs[i, j] <= 1.0)
      && (lastObservations.Some? ==> IsRect(lastObservations.value))
    }

    /** `OccupancyMap(grid_size)`: every message of both arrays and every
        belief is 0.5, and no observation has been made. */
    constructor (gridSize: (nat, nat))
      ensures Valid() && n == gridSize && lastObservations.None?
      ensures fresh(mapBeliefs) && fresh(msgs) && fresh(msgsBuffer)
      ensures forall c, i, j :: 0 <= c < 5 && 0 <= i < n.0 && 0 <= j < n.1 ==>
                msgs[c, i, j] == 0.5 && msgsBuffer[c, i, j] == 0.5
      ensures forall i, j :: 0 <= i < n.0 && 0 <= j < n.1 ==> mapBeliefs[i, j] == 0.5
    {
      n := gridSize;
      lastObservations := None;
      msgs := new real[5, gridSize.0, gridSize.1]((c, i, j) => 0.5);
      msgsBuffer := new real[5, gridSize.0, gridSize.1]((c, i, j) => 0.5);
      mapBeliefs := new real[gridSize.0, gridSize.1]((i, j) => 0.5);
    }

    /** `update_belief_OG(zx, zy, z, uav_pos)` without a noise generator: a
        Bayesian update of every footprint belief by the observation of its
        cell under the error rate of the current altitude; nothing else
        changes, and nothing changes on an error. */
    method UpdateBeliefOG(zx: seq<seq<real>>, zy: seq<seq<real>>, z: seq<seq<int>>, uavPos: UavPosition,
                          exp: real -> real) returns (err: Option<Error>)
      requires Valid() && IsRect(zx) && IsRect(zy) && IsRect(z)
      modifies mapBeliefs
      ensures Valid()
      ensures var fp, sigma := GetIndices(zx, zy), Sensor.Sigma(exp, uavPos.altitude);
        && (fp.Err? ==> err == Some(fp.error) && unchanged(mapBeliefs))
        && (fp.Ok? ==>
              var r := ProductRegion(fp.value, n);
              && err == ObservationCheck(z, sigma, r)
              && (err.Some? ==> unchanged(mapBeliefs))
              && (err.None? ==> forall i, j :: 0 <= i < n.0 && 0 <= j < n.1 ==>
                    mapBeliefs[i, j] == if InRegion(r, i, j) then ObservedBelief(z, sigma, r, i, j, old(mapBeliefs[i, j]))
                                        else old(mapBeliefs[i, j])))
    {
      var fp := GetIndices(zx, zy);
      if fp.Err? {
        return Some(fp.error);
      }
      var sigma := Sensor.Sigma(exp, uavPos.altitude);
      var r := ProductRegion(fp.value, n);
      err := ObservationCheck(z, sigma, r);
      if err.Some? {
        return;
      }
      ApplyObservation(z, sigma, r);
    }

    /** `map_beliefs[product_slice] = posterior`, once the observation is
        known to fit the region. */
    method ApplyObservation(z: seq<seq<int>>, sigma: real, r: Region)
      requires Valid() && IsRect(z) && ShapeFits(z, r) && ObservationCheck(z, sigma, r).None?
      requires r.r1 <= n.0 && r.c1 <= n.1
      modifies mapBeliefs
      ensures Valid()
      ensures forall i, j :: 0 <= i < n.0 && 0 <= j < n.1 ==>
                mapBeliefs[i, j] == if InRegion(r, i, j) then ObservedBelief(z, sigma, r, i, j, old(mapBeliefs[i, j]))
                                    else old(mapBeliefs[i, j])
    {
      forall i, j | r.r0 <= i < r.r1 && r.c0 <= j < r.c1 {
        mapBeliefs[i, j] := ObservedBelief(z, sigma, r, i, j, mapBeliefs[i, j]);
      }
    }

    /** `propagate_messages_(zx, zy, z, uav_pos, max_iterations,
        correlation_type)`: remembers `z`, builds the pairwise potential and
        the footprint, resets both message arrays (channel 4 of `msgs` to the
        current beliefs), runs `max_iterations` synchronous passes, and
        writes the belief of every footprint cell. With no pass at all the
        final read of `product_slice` fails; a direction whose assignment
        does not fit fails in the first pass. */
    method PropagateMessages(zx: seq<seq<real>>, zy: seq<seq<real>>, z: seq<seq<int>>, maxIterations: int,
                             correlationType: Option<string>, sqrt: real -> real, exp: real -> real)
      returns (err: Option<Error>)
      requires Valid() && IsRect(zx) && IsRect(zy) && IsRect(z)
      requires forall t :: exp(t) > 0.0
      modifies this, mapBeliefs
      ensures Valid() && lastObservations == Some(z)
      ensures var psi, fp := Pairwise.PairwisePotential(correlationType, Some(z), sqrt, exp), GetIndices(zx, zy);
        && psi.Ok?
        && (fp.Err? ==> err == Some(fp.error) && msgs == old(msgs) && msgsBuffer == old(msgsBuffer) && unchanged(mapBeliefs))
        && (fp.Ok? ==> Propagated(Setting(n, PlanOf(fp.value, n), psi.value, old(GridOf(mapBeliefs))), maxIterations, err))
    {
      // `last_observations` is only read by the potential, which gets `z`
      // directly (and with it always succeeds); the field is set on every
      // path before returning
      var psi := Pairwise.PairwisePotential(correlationType, Some(z), sqrt, exp);
      var fp := GetIndices(zx, zy);
      if fp.Err? {
        lastObservations := Some(z);
        return Some(fp.error);
      }
      var plan := PlanOf(fp.value, n);
      ghost var s := Setting(n, plan, psi.value, GridOf(mapBeliefs));
      err := Iterate(z, plan, psi.value, maxIterations, s);
    }

    /** What a call of `propagate_messages_` that got as far as the potential
        and the footprint leaves behind, for the setting `s` it started
        from: with no pass at all the final read of `product_slice` fails,
        a direction whose assignment does not fit fails in the first pass,
        and otherwise `msgs` holds `maxIterations` passes and every
        footprint cell its belief. Both message arrays are new. */
    twostate predicate Propagated(s: Setting, maxIterations: int, new err: Option<Error>)
      reads this, mapBeliefs, msgs
    {
      && Admissible(s) && s.n == n && mapBeliefs.Length0 == n.0 && mapBeliefs.Length1 == n.1
      && fresh(msgs) && fresh(msgsBuffer)
      && (maxIterations <= 0 ==> err == Some(UnboundLocalError) && unchanged(mapBeliefs) && Holds(msgs, s, 0))
      && (maxIterations > 0 && !AllFit(s.plan) ==> err == Some(ValueError) && unchanged(mapBeliefs) && Holds(msgs, s, 0))
      && (maxIterations > 0 && AllFit(s.plan) ==>
            && err.None? && Holds(msgs, s, maxIterations)
            && forall i, j :: 0 <= i < n.0 && 0 <= j < n.1 ==>
                 mapBeliefs[i, j] == if InRegion(s.plan.product, i, j) then Belief(s, maxIterations, i, j)
                                     else old(mapBeliefs[i, j]))
    }

    /** The reset, the passes and the closing belief update of
        `propagate_messages_`, once the potential and the plan are known. */
    method Iterate(z: seq<seq<int>>, plan: Plan, psi: Psi, maxIterations: int, ghost s: Setting)
      returns (err: Option<Error>)
      requires Valid() && IsRect(z) && s == Setting(n, plan, psi, GridOf(mapBeliefs)) && Admissible(s)
      modifies this, mapBeliefs
      ensures Valid() && lastObservations == Some(z) && Propagated(s, maxIterations, err)
    {
      lastObservations := Some(z);
      Reset(s);
      var ok := RunPasses(plan, psi, maxIterations, s);
      if !ok {
        return Some(ValueError);
      }
      if maxIterations <= 0 {
        return Some(UnboundLocalError);
      }
      WriteBeliefs(plan.product, s, maxIterations);
      err := None;
    }

    /** The `for` loop over `max_iterations` passes, each followed by the
        copy of the buffer into `msgs`; it fails in the first pass when a
        direction does not fit. */
    method RunPasses(plan: Plan, psi: Psi, maxIterations: int, ghost s: Setting) returns (ok: bool)
      requires msgs != msgsBuffer && s == Setting(n, plan, psi, s.beliefs)
      requires Holds(msgs, s, 0) && PassReady(msgsBuffer, s, 0)
      modifies msgs, msgsBuffer
      ensures ok == (maxIterations <= 0 || AllFit(plan))
      ensures Holds(msgs, s, if ok && maxIterations > 0 then maxIterations else 0)
    {
      var it: nat := 0;
      while it < maxIterations
        invariant it == 0 || it <= maxIterations
        invariant Holds(msgs, s, it) && PassReady(msgsBuffer, s, it)
        invariant it > 0 ==> AllFit(plan)
        decreases maxIterations - it
      {
        ok := Pass(plan, psi, s, it);
        if !ok {
          return;
        }
        CopyMessages(s, it);
        it := it + 1;
      }
      ok := true;
    }

    /** The buffer before a pass that starts from `k` passes: its directional
        channels equal `msgs`, its belief channel keeps its initial 0.5. */
    ghost predicate PassReady(b: array3<real>, s: Setting, k: nat)
      reads b
      requires Admissible(s)
    {
      && b.Length0 == 5 && b.Length1 == s.n.0 && b.Length2 == s.n.1
      && (forall c, i, j :: 0 <= c < 4 && 0 <= i < s.n.0 && 0 <= j < s.n.1 ==> b[c, i, j] == Msg(s, k, c, i, j))
      && (forall i, j :: 0 <= i < s.n.0 && 0 <= j < s.n.1 ==> b[4, i, j] == 0.5)
    }

    /** Lines resetting `msgs` and `msgs_buffer` to 0.5 and `msgs[4]` to the
        current beliefs: both arrays then hold the messages of no pass. */
    method Reset(ghost s: Setting)
      requires Valid() && Admissible(s) && s.n == n && s.beliefs == GridOf(mapBeliefs)
      modifies this
      ensures Valid() && fresh(msgs) && fresh(msgsBuffer) && lastObservations == old(lastObservations)
      ensures Holds(msgs, s, 0) && PassReady(msgsBuffer, s, 0)
    {
      msgs := new real[5, n.0, n.1]((c, i, j) => 0.5);
      msgsBuffer := new real[5, n.0, n.1]((c, i, j) => 0.5);
      forall i, j | 0 <= i < n.0 && 0 <= j < n.1 {
        msgs[4, i, j] := mapBeliefs[i, j];
      }
    }

    /** One synchronous pass: the four directions in the order of the table,
        each reading `msgs` as the pass found it. */
    method Pass(plan: Plan, psi: Psi, ghost s: Setting, ghost k: nat) returns (ok: bool)
      requires msgs != msgsBuffer && s == Setting(n, plan, psi, s.beliefs)
      requires Holds(msgs, s, k) && PassReady(msgsBuffer, s, k)
      modifies msgsBuffer
      ensures ok == AllFit(plan)
      ensures ok ==> PassReady(msgsBuffer, s, k + 1)
    {
      var t := 0;
      while t < 4
        invariant 0 <= t <= 4
        invariant forall c, i, j :: 0 <= c < 4 && 0 <= i < n.0 && 0 <= j < n.1 ==>
                    msgsBuffer[c, i, j] == Msg(s, if Position(WriterOf(c)) < t then k + 1 else k, c, i, j)
        invariant forall i, j :: 0 <= i < n.0 && 0 <= j < n.1 ==> msgsBuffer[4, i, j] == 0.5
        invariant forall u :: 0 <= u < t ==> Fits(RouteOf(plan, Directions[u]))
      {
        var d := Directions[t];
        ChannelDiscipline(d);
        ScheduleStep(t);
        ok := Send(d, plan, psi, s, k);
        if !ok {
          AllFitByDirection(plan);
          return;
        }
        t := t + 1;
      }
      AllFitByDirection(plan);
      ok := true;
    }

    /** `msgs[:4] = msgs_buffer[:4]` after a pass. */
    method CopyMessages(ghost s: Setting, ghost k: nat)
      requires msgs != msgsBuffer && s.n == n && Holds(msgs, s, k) && PassReady(msgsBuffer, s, k + 1)
      modifies msgs
      ensures Holds(msgs, s, k + 1)
    {
      forall c, i, j | 0 <= c < 4 && 0 <= i < n.0 && 0 <= j < n.1 {
        msgs[c, i, j] := msgsBuffer[c, i, j];
      }
    }

    /** The closing `map_beliefs[product_slice] = ...`: every footprint cell
        gets the belief read off its five channels after `k` passes. */
    method WriteBeliefs(p: Region, ghost s: Setting, ghost k: nat)
      requires Valid() && s.n == n && p == s.plan.product && Holds(msgs, s, k)
      modifies mapBeliefs
      ensures Valid()
      ensures forall i, j :: 0 <= i < n.0 && 0 <= j < n.1 ==>
                mapBeliefs[i, j] == if InRegion(s.plan.product, i, j) then Belief(s, k, i, j) else old(mapBeliefs[i, j])
    {
      forall i, j | p.r0 <= i < p.r1 && p.c0 <= j < p.c1 {
        mapBeliefs[i, j] := OccupancyOf([msgs[0, i, j], msgs[1, i, j], msgs[2, i, j], msgs[3, i, j], msgs[4, i, j]]);
      }
    }

    /** One direction of a pass: `msgs_buffer[write_slice] =
        norm_msg_1[read_slice]`, with every message computed from `msgs` as
        it stood at the start of the pass. */
    method Send(d: Direction, plan: Plan, psi: Psi, ghost s: Setting, ghost k: nat) returns (ok: bool)
      requires msgsBuffer.Length0 == 5 && msgsBuffer.Length1 == n.0 && msgsBuffer.Length2 == n.1
      requires msgs != msgsBuffer && s == Setting(n, plan, psi, s.beliefs) && Holds(msgs, s, k)
      requires forall i, j :: 0 <= i < n.0 && 0 <= j < n.1 ==>
                 msgsBuffer[WriteChannel(d), i, j] == Msg(s, k, WriteChannel(d), i, j)
      modifies msgsBuffer
      ensures ok == Fits(RouteOf(plan, d))
      ensures !ok ==> unchanged(msgsBuffer)
      ensures ok ==> forall c, i, j :: 0 <= c < 5 && 0 <= i < n.0 && 0 <= j < n.1 ==>
                msgsBuffer[c, i, j] == if c == WriteChannel(d) then Msg(s, k + 1, c, i, j) else old(msgsBuffer[c, i, j])
    {
      var route := RouteOf(plan, d);
      if !Fits(route) {
        return false;
      }
      ChannelDiscipline(d);
      Write(d, plan, psi, route, s, k);
      forall i, j | 0 <= i < n.0 && 0 <= j < n.1
        ensures msgsBuffer[WriteChannel(d), i, j] == Msg(s, k + 1, WriteChannel(d), i, j)
      {
        if InRegion(route.write, i, j) {
          var src := SourceCell(plan.product, route, i, j);
          HeldGathered(msgs, s, k, d, src.i, src.j);
          MsgInsideWrites(s, k, d, i, j);
        } else {
          MsgOutsideWrites(s, k, WriteChannel(d), i, j);
          MsgOutsideWrites(s, k + 1, WriteChannel(d), i, j);
        }
      }
      ok := true;
    }

    /** The assignment itself: each cell of the write region gets the
        message computed from the channels at its source cell. */
    method Write(d: Direction, plan: Plan, psi: Psi, route: Route, ghost s: Setting, ghost k: nat)
      requires msgsBuffer.Length0 == 5 && msgsBuffer.Length1 == n.0 && msgsBuffer.Length2 == n.1
      requires msgs != msgsBuffer && s == Setting(n, plan, psi, s.beliefs) && Holds(msgs, s, k)
      requires route == RouteOf(plan, d) && Fits(route)
      modifies msgsBuffer
      ensures forall c, i, j :: 0 <= c < 5 && 0 <= i < n.0 && 0 <= j < n.1 ==>
                msgsBuffer[c, i, j] ==
                  if c == WriteChannel(d) && InRegion(route.write, i, j) then
                    var src := SourceCell(plan.product, route, i, j);
                    NormMsg(psi, ChannelsAt(msgs, ProductChannels(d), src.i, src.j))
                  else old(msgsBuffer[c, i, j])
    {
      ChannelDiscipline(d);
      var wc, ch := WriteChannel(d), ProductChannels(d);
      forall i, j | route.write.r0 <= i < route.write.r1 && route.write.c0 <= j < route.write.c1 {
        msgsBuffer[wc, i, j] :=
          var src := SourceCell(plan.product, route, i, j);
          NormMsg(psi, ChannelsAt(msgs, ch, src.i, src.j));
      }
    }
  }
}
