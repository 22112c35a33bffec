/** The altitude-dependent observation error of the downward camera and
    the flip rule that turns a ground-truth cell into an observation. */
module Sensor {

  /** `a` and `b` of `sigma = a * (1 - exp(-b * altitude))`. */
  const A: real := 1.0
  const B: real := 0.015

  /** The probability of misreading a cell from `altitude`; `exp` is the
      exponential function, supplied by the caller. */
  function Sigma(exp: real -> real, altitude: real): real {
    A * (1.0 - exp(-B * altitude))
  }

  /** The observation of one cell of true state `truth` given the uniform
      draw `draw` in [0, 1) and the error rates `s0`, `s1` of the states 0
      and 1: a 0-cell reads 0 when `draw <= 1 - s0`, a 1-cell reads 1 when
      `draw <= 1 - s1`, and any other value reads 0. */
  function Observe(truth: int, draw: real, s0: real, s1: real): (z: int)
    ensures z == 0 || z == 1
    ensures truth == 0 ==> (z == truth <==> draw <= 1.0 - s0)
    ensures truth == 1 ==> (z == truth <==> draw <= 1.0 - s1)
    ensures truth != 0 && truth != 1 ==> z == 0
  {
    var success0 := draw <= 1.0 - s0;
    var success1 := draw <= 1.0 - s1;
    var z0 := if success0 && truth == 0 then 0 else 1;
    var z1 := if success1 && truth == 1 then 1 else 0;
    if truth == 0 then z0 else z1
  }

  /** A perfect sensor (both error rates 0) reports a binary truth as it
      is, whatever the draw in [0, 1]. */
  lemma {:induction false} PerfectSensor(truth: int, draw: real)
    requires truth == 0 || truth == 1
    requires 0.0 <= draw <= 1.0
    ensures Observe(truth, draw, 0.0, 0.0) == truth
  {
  }

  /** The observation of row `a` of a submap: `draws(a, b)` is the uniform
      value drawn for its cell (a, b). */
  function ObserveRow(row: seq<int>, a: nat, draws: (nat, nat) -> real, s0: real, s1: real): (z: seq<int>)
    ensures |z| == |row|
    ensures forall b :: 0 <= b < |row| ==> z[b] == Observe(row[b], draws(a, b), s0, s1)
  {
    seq(|row|, b requires 0 <= b < |row| => Observe(row[b], draws(a, b), s0, s1))
  }

  /** The observation of a whole submap, cell by cell. */
  function ObserveMap(sub: seq<seq<int>>, draws: (nat, nat) -> real, s0: real, s1: real): (z: seq<seq<int>>)
    ensures |z| == |sub|
    ensures forall a :: 0 <= a < |sub| ==> |z[a]| == |sub[a]|
    ensures forall a, b :: 0 <= a < |sub| && 0 <= b < |sub[a]| ==> z[a][b] == 0 || z[a][b] == 1
    ensures forall a, b :: 0 <= a < |sub| && 0 <= b < |sub[a]| && sub[a][b] == 0 ==>
              (z[a][b] == 0 <==> draws(a, b) <= 1.0 - s0)
    ensures forall a, b :: 0 <= a < |sub| && 0 <= b < |sub[a]| && sub[a][b] == 1 ==>
              (z[a][b] == 1 <==> draws(a, b) <= 1.0 - s1)
  {
    var z := seq(|sub|, a requires 0 <= a < |sub| => ObserveRow(sub[a], a, draws, s0, s1));
    assert forall a :: 0 <= a < |sub| ==> z[a] == ObserveRow(sub[a], a, draws, s0, s1);
    z
  }
}
