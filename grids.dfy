/** Two-dimensional grids as sequences of rows, and the row-major cell
    enumeration that the nested `for i ...: for j ...:` loops of the source
    produce. */
module Grids {
  import opened Common

  function Rows<T>(g: seq<seq<T>>): nat { |g| }

  function Cols<T>(g: seq<seq<T>>): nat { if |g| == 0 then 0 else |g[0]| }

  /** Every row has the same length, as in a numpy 2-D array. */
  predicate IsRect<T>(g: seq<seq<T>>) {
    forall r :: 0 <= r < |g| ==> |g[r]| == Cols(g)
  }

  predicate SameShape<T, U>(a: seq<seq<T>>, b: seq<seq<U>>) {
    IsRect(a) && IsRect(b) && Rows(a) == Rows(b) && Cols(a) == Cols(b)
  }

  /** A rectangular grid of `rows` by `cols` copies of `v` (`np.full`). */
  function Full<T>(rows: nat, cols: nat, v: T): (g: seq<seq<T>>)
    ensures |g| == rows && IsRect(g)
    ensures forall r :: 0 <= r < rows ==> |g[r]| == cols
    ensures forall r, c :: 0 <= r < rows && 0 <= c < cols ==> g[r][c] == v
  {
    seq(rows, _ => seq(cols, _ => v))
  }

  /** `g[lo0:hi0, lo1:hi1]` under Python's slice rules. */
  function Submap<T>(g: seq<seq<T>>, lo0: int, hi0: int, lo1: int, hi1: int): (s: seq<seq<T>>)
    requires IsRect(g)
    ensures |s| == SliceBounds(lo0, hi0, Rows(g)).1 - SliceBounds(lo0, hi0, Rows(g)).0
    ensures forall r :: 0 <= r < |s| ==> |s[r]| == SliceBounds(lo1, hi1, Cols(g)).1 - SliceBounds(lo1, hi1, Cols(g)).0
    ensures forall r, c :: 0 <= r < |s| && 0 <= c < |s[r]| ==>
              s[r][c] == g[SliceBounds(lo0, hi0, Rows(g)).0 + r][SliceBounds(lo1, hi1, Cols(g)).0 + c]
  {
    var (r0, r1) := SliceBounds(lo0, hi0, Rows(g));
    var (c0, c1) := SliceBounds(lo1, hi1, Cols(g));
    seq(r1 - r0, r requires 0 <= r < r1 - r0 => g[r0 + r][c0..c1])
  }

  /** The row-major `flatten()` of a grid. */
  function Flatten<T>(g: seq<seq<T>>): (s: seq<T>)
    ensures |g| == 0 ==> s == []
  {
    if |g| == 0 then [] else Flatten(g[..|g| - 1]) + g[|g| - 1]
  }

  lemma {:induction false} FlattenMembership<T>(g: seq<seq<T>>, x: T)
    ensures x in Flatten(g) <==> exists r, c :: 0 <= r < |g| && 0 <= c < |g[r]| && g[r][c] == x
  {
    if |g| > 0 {
      var init := g[..|g| - 1];
      FlattenMembership(init, x);
      if x in Flatten(g) {
        if x in Flatten(init) {
          var r, c :| 0 <= r < |init| && 0 <= c < |init[r]| && init[r][c] == x;
          assert g[r][c] == x;
        } else {
          assert x in g[|g| - 1];
          var c :| 0 <= c < |g[|g| - 1]| && g[|g| - 1][c] == x;
          assert g[|g| - 1][c] == x;
        }
      } else {
        forall r, c | 0 <= r < |g| && 0 <= c < |g[r]| ensures g[r][c] != x {
          if r < |g| - 1 {
            assert init[r][c] == g[r][c];
          } else {
            assert g[r][c] in g[|g| - 1];
          }
        }
      }
    }
  }

  /** A rectangular grid flattens to rows * cols values. */
  lemma {:induction false} FlattenLength<T>(g: seq<seq<T>>)
    requires IsRect(g)
    ensures |Flatten(g)| == Rows(g) * Cols(g)
  {
    if |g| > 0 {
      var init := g[..|g| - 1];
      assert IsRect(init) by {
        if |init| > 0 { assert Cols(init) == Cols(g); }
      }
      FlattenLength(init);
      assert Rows(init) * Cols(init) == (Rows(g) - 1) * Cols(g) by {
        if |init| > 0 { assert Cols(init) == Cols(g); }
      }
    }
  }

  /** Smallest element of a non-empty sequence (`np.min`). */
  function MinOf(s: seq<real>): (m: real)
    requires |s| > 0
    ensures m in s
    ensures forall k :: 0 <= k < |s| ==> m <= s[k]
  {
    if |s| == 1 then s[0] else MinR(MinOf(s[..|s| - 1]), s[|s| - 1])
  }

  /** Largest element of a non-empty sequence (`np.max`). */
  function MaxOf(s: seq<real>): (m: real)
    requires |s| > 0
    ensures m in s
    ensures forall k :: 0 <= k < |s| ==> s[k] <= m
  {
    if |s| == 1 then s[0] else MaxR(MaxOf(s[..|s| - 1]), s[|s| - 1])
  }

  function MinOfInt(s: seq<int>): (m: int)
    requires |s| > 0
    ensures m in s
    ensures forall k :: 0 <= k < |s| ==> m <= s[k]
  {
    if |s| == 1 then s[0] else Min(MinOfInt(s[..|s| - 1]), s[|s| - 1])
  }

  function MaxOfInt(s: seq<int>): (m: int)
    requires |s| > 0
    ensures m in s
    ensures forall k :: 0 <= k < |s| ==> s[k] <= m
  {
    if |s| == 1 then s[0] else Max(MaxOfInt(s[..|s| - 1]), s[|s| - 1])
  }

  /** The cells of `[iMin, iMax) x [jMin, jMax)` in the order of the loops
      `for i in range(iMin, iMax): for j in range(jMin, jMax):`. */
  function RowMajor(iMin: int, iMax: int, jMin: int, jMax: int): (cells: seq<Cell>)
  {
    var h, w := Max(0, iMax - iMin), Max(0, jMax - jMin);
    seq(h * w, k requires 0 <= k < h * w => Cell(iMin + k / w, jMin + k % w))
  }

  predicate InRect(c: Cell, iMin: int, iMax: int, jMin: int, jMax: int) {
    iMin <= c.i < iMax && jMin <= c.j < jMax
  }

  lemma DivModOf(q: int, r: int, w: int)
    requires 0 <= r < w
    ensures (q * w + r) / w == q && (q * w + r) % w == r
  {
    var k := q * w + r;
    var q', r' := k / w, k % w;
    assert (q - q') * w == r' - r;
    if q - q' >= 1 {
      MulAtLeast(q - q', w);
    } else if q' - q >= 1 {
      MulAtLeast(q' - q, w);
    }
  }

  lemma MulAtLeast(a: int, w: int)
    requires a >= 1 && w > 0
    ensures a * w >= w
  {
  }

  lemma DivBelow(k: int, w: int, h: int)
    requires 0 <= k < h * w && w > 0
    ensures k / w < h
  {
  }

  /** Row-major enumeration lists every cell of the rectangle, nothing else,
      each exactly once. */
  lemma {:induction false} RowMajorCells(iMin: int, iMax: int, jMin: int, jMax: int)
    ensures |RowMajor(iMin, iMax, jMin, jMax)| == Max(0, iMax - iMin) * Max(0, jMax - jMin)
    ensures forall c :: c in RowMajor(iMin, iMax, jMin, jMax) <==> InRect(c, iMin, iMax, jMin, jMax)
    ensures forall a, b ::
              (0 <= a < |RowMajor(iMin, iMax, jMin, jMax)| && 0 <= b < |RowMajor(iMin, iMax, jMin, jMax)| &&
               RowMajor(iMin, iMax, jMin, jMax)[a] == RowMajor(iMin, iMax, jMin, jMax)[b]) ==> a == b
  {
    RowMajorComplete(iMin, iMax, jMin, jMax);
    RowMajorSound(iMin, iMax, jMin, jMax);
    RowMajorInjective(iMin, iMax, jMin, jMax);
  }

  lemma {:induction false} RowMajorComplete(iMin: int, iMax: int, jMin: int, jMax: int)
    ensures forall c :: InRect(c, iMin, iMax, jMin, jMax) ==> c in RowMajor(iMin, iMax, jMin, jMax)
  {
    var cells := RowMajor(iMin, iMax, jMin, jMax);
    var h, w := Max(0, iMax - iMin), Max(0, jMax - jMin);
    forall c | InRect(c, iMin, iMax, jMin, jMax) ensures c in cells {
      var q, r := c.i - iMin, c.j - jMin;
      DivModOf(q, r, w);
      var k := q * w + r;
      MulMonotonicInt(w, q, h - 1);
      assert (h - 1) * w + w == h * w;
      assert cells[k] == c;
    }
  }

  lemma MulMonotonicInt(w: int, a: int, b: int)
    requires w >= 0 && a <= b
    ensures a * w <= b * w
  {
  }

  lemma {:induction false} RowMajorSound(iMin: int, iMax: int, jMin: int, jMax: int)
    ensures forall c :: c in RowMajor(iMin, iMax, jMin, jMax) ==> InRect(c, iMin, iMax, jMin, jMax)
  {
    var cells := RowMajor(iMin, iMax, jMin, jMax);
    var h, w := Max(0, iMax - iMin), Max(0, jMax - jMin);
    forall k | 0 <= k < |cells| ensures InRect(cells[k], iMin, iMax, jMin, jMax) {
      DivBelow(k, w, h);
    }
  }

  lemma {:induction false} RowMajorInjective(iMin: int, iMax: int, jMin: int, jMax: int)
    ensures forall a, b ::
              (0 <= a < |RowMajor(iMin, iMax, jMin, jMax)| && 0 <= b < |RowMajor(iMin, iMax, jMin, jMax)| &&
               RowMajor(iMin, iMax, jMin, jMax)[a] == RowMajor(iMin, iMax, jMin, jMax)[b]) ==> a == b
  {
    var cells := RowMajor(iMin, iMax, jMin, jMax);
    var w := Max(0, jMax - jMin);
    forall a, b | 0 <= a < |cells| && 0 <= b < |cells| && cells[a] == cells[b] ensures a == b {
      assert a / w == b / w && a % w == b % w;
      assert a == (a / w) * w + a % w;
      assert b == (b / w) * w + b % w;
    }
  }

  /** The nested append loops of `observed_m_ids`: the cells of the
      rectangle, row by row. */
  method EnumerateCells(iMin: int, iMax: int, jMin: int, jMax: int) returns (cells: seq<Cell>)
    ensures cells == RowMajor(iMin, iMax, jMin, jMax)
  {
    var h, w := Max(0, iMax - iMin), Max(0, jMax - jMin);
    cells := [];
    var i := iMin;
    while i < iMax
      invariant iMin <= i <= Max(iMin, iMax)
      invariant |cells| == (i - iMin) * w
      invariant forall k :: 0 <= k < |cells| ==> w > 0 && cells[k] == Cell(iMin + k / w, jMin + k % w)
    {
      var j := jMin;
      while j < jMax
        invariant jMin <= j <= Max(jMin, jMax)
        invariant |cells| == (i - iMin) * w + (j - jMin)
        invariant forall k :: 0 <= k < |cells| ==> w > 0 && cells[k] == Cell(iMin + k / w, jMin + k % w)
      {
        DivModOf(i - iMin, j - jMin, w);
        cells := cells + [Cell(i, j)];
        j := j + 1;
      }
      assert (i - iMin) * w + w == (i + 1 - iMin) * w;
      i := i + 1;
    }
    assert |cells| == h * w;
  }

  /** The four Von Neumann neighbours of `c` in the order top, bottom, left,
      right. */
  function FourNeighbours(c: Cell): seq<Cell> {
    [Cell(c.i - 1, c.j), Cell(c.i + 1, c.j), Cell(c.i, c.j - 1), Cell(c.i, c.j + 1)]
  }

  /** The elements of `s` inside `[0, rows) x [0, cols)`, in their order. */
  function KeepInside(s: seq<Cell>, rows: int, cols: int): (r: seq<Cell>)
    ensures |r| <= |s|
    ensures forall n :: n in r <==> n in s && InRect(n, 0, rows, 0, cols)
  {
    if |s| == 0 then []
    else (if InRect(s[0], 0, rows, 0, cols) then [s[0]] else []) + KeepInside(s[1..], rows, cols)
  }

  /** The in-bounds four-neighbours of `c`. */
  function InBoundNeighbours(rows: int, cols: int, c: Cell): (r: seq<Cell>)
    ensures |r| <= 4
    ensures forall n :: n in r <==> n in FourNeighbours(c) && InRect(n, 0, rows, 0, cols)
  {
    KeepInside(FourNeighbours(c), rows, cols)
  }

  /** Where `n` stands in the order top, bottom, left, right around `c`
      (4 for a cell that is not a neighbour). */
  function Rank(c: Cell, n: Cell): nat {
    if n == Cell(c.i - 1, c.j) then 0
    else if n == Cell(c.i + 1, c.j) then 1
    else if n == Cell(c.i, c.j - 1) then 2
    else if n == Cell(c.i, c.j + 1) then 3
    else 4
  }

  /** The in-bounds neighbours come in the order top, bottom, left, right,
      each once. */
  lemma {:induction false} InBoundNeighboursOrdered(rows: int, cols: int, c: Cell)
    ensures forall a, b :: 0 <= a < b < |InBoundNeighbours(rows, cols, c)| ==>
              Rank(c, InBoundNeighbours(rows, cols, c)[a]) < Rank(c, InBoundNeighbours(rows, cols, c)[b])
  {
    var four := FourNeighbours(c);
    forall k | 0 <= k < 4 ensures Rank(c, four[k]) == k {
    }
    KeepInsideOrdered(four, rows, cols, c);
  }

  lemma {:induction false} KeepInsideOrdered(s: seq<Cell>, rows: int, cols: int, c: Cell)
    requires forall a, b :: 0 <= a < b < |s| ==> Rank(c, s[a]) < Rank(c, s[b])
    ensures forall a, b :: 0 <= a < b < |KeepInside(s, rows, cols)| ==>
              Rank(c, KeepInside(s, rows, cols)[a]) < Rank(c, KeepInside(s, rows, cols)[b])
  {
    if |s| > 0 {
      var tail := s[1..];
      assert forall a, b :: 0 <= a < b < |tail| ==> Rank(c, tail[a]) < Rank(c, tail[b]) by {
        forall a, b | 0 <= a < b < |tail| ensures Rank(c, tail[a]) < Rank(c, tail[b]) {
          assert tail[a] == s[a + 1] && tail[b] == s[b + 1];
        }
      }
      KeepInsideOrdered(tail, rows, cols, c);
      var rest := KeepInside(tail, rows, cols);
      if InRect(s[0], 0, rows, 0, cols) {
        var r := [s[0]] + rest;
        forall a, b | 0 <= a < b < |r| ensures Rank(c, r[a]) < Rank(c, r[b]) {
          if a == 0 {
            assert r[b] in tail;
            var k :| 0 <= k < |tail| && tail[k] == r[b];
            assert s[k + 1] == r[b];
          } else {
            assert r[a] == rest[a - 1] && r[b] == rest[b - 1];
          }
        }
      }
    }
  }

  /** Being in-bound neighbours is symmetric. */
  lemma NeighbourSymmetric(rows: int, cols: int, a: Cell, b: Cell)
    requires InRect(a, 0, rows, 0, cols)
    requires b in InBoundNeighbours(rows, cols, a)
    ensures a in InBoundNeighbours(rows, cols, b)
  {
  }
}
