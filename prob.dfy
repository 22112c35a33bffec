/** Probability vectors and the products and normalisations both
    belief-propagation variants are built from. */
module Prob {

  /** A two-state vector [P(free), P(occupied)]: the last axis of the
      full-grid variant's `phi`, messages and marginals. */
  datatype Vec2 = Vec2(p0: real, p1: real)

  function Total(v: Vec2): real { v.p0 + v.p1 }

  predicate IsDistribution(v: Vec2) {
    0.0 <= v.p0 && 0.0 <= v.p1 && v.p0 + v.p1 == 1.0
  }

  predicate IsPositiveDistribution(v: Vec2) {
    0.0 < v.p0 && 0.0 < v.p1 && v.p0 + v.p1 == 1.0
  }

  /** `v / np.sum(v)` on a two-state vector. */
  function Normalize(v: Vec2): (r: Vec2)
    requires Total(v) != 0.0
    ensures Total(r) == 1.0
    ensures r.p0 * Total(v) == v.p0 && r.p1 * Total(v) == v.p1
    ensures 0.0 <= v.p0 && 0.0 <= v.p1 ==> IsDistribution(r)
    ensures 0.0 < v.p0 && 0.0 < v.p1 ==> IsPositiveDistribution(r)
  {
    Vec2(v.p0 / Total(v), v.p1 / Total(v))
  }

  /** Normalising an already normalised vector changes nothing. */
  lemma {:induction false} NormalizeIdempotent(v: Vec2)
    requires Total(v) != 0.0
    ensures Normalize(Normalize(v)) == Normalize(v)
  {
    var n := Normalize(v);
    assert Total(n) == 1.0;
  }

  /** Elementwise product of two vectors (numpy `*`). */
  function Mul(a: Vec2, b: Vec2): Vec2 {
    Vec2(a.p0 * b.p0, a.p1 * b.p1)
  }

  /** `np.prod(vectors, axis=0)`; the product of no vectors is [1, 1]. */
  function ProdVecs(s: seq<Vec2>): (r: Vec2)
    ensures (forall k :: 0 <= k < |s| ==> 0.0 < s[k].p0 && 0.0 < s[k].p1) ==> 0.0 < r.p0 && 0.0 < r.p1
  {
    if |s| == 0 then Vec2(1.0, 1.0) else Mul(ProdVecs(s[..|s| - 1]), s[|s| - 1])
  }

  /** `np.prod(s)` on scalars; the empty product is 1. */
  function Prod(s: seq<real>): real {
    if |s| == 0 then 1.0 else Prod(s[..|s| - 1]) * s[|s| - 1]
  }

  /** A product of probabilities is a probability. */
  lemma {:induction false} ProdOfProbabilities(s: seq<real>)
    requires forall k :: 0 <= k < |s| ==> 0.0 <= s[k] <= 1.0
    ensures 0.0 <= Prod(s) <= 1.0
  {
    if |s| > 0 {
      var init := s[..|s| - 1];
      assert forall k :: 0 <= k < |init| ==> init[k] == s[k];
      ProdOfProbabilities(init);
      MulUnit(Prod(init), s[|s| - 1]);
    }
  }

  /** A product of positive factors is positive. */
  lemma {:induction false} ProdOfPositives(s: seq<real>)
    requires forall k :: 0 <= k < |s| ==> 0.0 < s[k]
    ensures 0.0 < Prod(s)
  {
    if |s| > 0 {
      var init := s[..|s| - 1];
      assert forall k :: 0 <= k < |init| ==> init[k] == s[k];
      ProdOfPositives(init);
      MulPositive(Prod(init), s[|s| - 1]);
    }
  }

  /** `1 - s`, elementwise. */
  function Complement(s: seq<real>): (c: seq<real>)
    ensures |c| == |s|
    ensures forall k :: 0 <= k < |s| ==> c[k] == 1.0 - s[k]
  {
    seq(|s|, k requires 0 <= k < |s| => 1.0 - s[k])
  }

  /** The channel values a windowed message or belief is computed from:
      directional messages strictly inside (0, 1), then the belief channel,
      always last, inside [0, 1]. */
  predicate IsMessageVector(s: seq<real>) {
    && |s| >= 1
    && (forall k :: 0 <= k < |s| - 1 ==> 0.0 < s[k] < 1.0)
    && 0.0 <= s[|s| - 1] <= 1.0
  }

  /** Both products of a message vector are probabilities, and they cannot
      both vanish, so `prod / (prod + prod_complement)` is defined. */
  lemma {:induction false} MessageVectorProducts(s: seq<real>)
    requires IsMessageVector(s)
    ensures 0.0 <= Prod(s) && 0.0 <= Prod(Complement(s))
    ensures Prod(s) + Prod(Complement(s)) > 0.0
  {
    var n := |s|;
    var init, cinit := s[..n - 1], Complement(s)[..n - 1];
    assert Complement(s)[..n] == Complement(s);
    assert s[..n] == s;
    assert forall k :: 0 <= k < |init| ==> 0.0 < init[k];
    assert forall k :: 0 <= k < |cinit| ==> 0.0 < cinit[k];
    ProdOfPositives(init);
    ProdOfPositives(cinit);
    var p, q := Prod(init), Prod(cinit);
    assert 0.0 < p && 0.0 < q;
    var x := s[n - 1];
    assert Prod(s) == p * x;
    assert Prod(Complement(s)) == q * (1.0 - x);
    if x >= 0.5 {
      MulMonotonic(p, 0.5, x);
    } else {
      MulMonotonic(q, 0.5, 1.0 - x);
    }
  }

  /** When every directional value is 0.5, the two products differ only in
      the last (belief) factor. */
  lemma {:induction false} UniformPrefixProducts(s: seq<real>)
    requires |s| >= 1
    requires forall k :: 0 <= k < |s| - 1 ==> s[k] == 0.5
    ensures Prod(s[..|s| - 1]) == Prod(Complement(s)[..|s| - 1]) > 0.0
  {
    var n := |s|;
    if n > 1 {
      var t, cs := s[..n - 1], Complement(s);
      UniformPrefixProducts(t);
      assert t[..|t| - 1] == s[..n - 2];
      assert Complement(t)[..|t| - 1] == cs[..n - 2];
      assert s[..n - 1][..n - 2] == s[..n - 2];
      assert cs[..n - 1][..n - 2] == cs[..n - 2];
      var p := Prod(s[..n - 2]);
      assert Prod(cs[..n - 2]) == p > 0.0;
      assert Prod(s[..n - 1]) == p * 0.5;
      assert cs[n - 2] == 0.5;
      assert Prod(cs[..n - 1]) == p * 0.5;
    }
  }

  /** `prod(s) / (prod(s) + prod(1 - s))`: the normalised occupied component
      of a message vector. */
  function OccupancyOf(s: seq<real>): (r: real)
    requires IsMessageVector(s)
    ensures 0.0 <= r <= 1.0
  {
    MessageVectorProducts(s);
    Ratio(Prod(s), Prod(Complement(s)))
  }

  /** `a / (a + b)` for non-negative weights that do not both vanish. */
  function Ratio(a: real, b: real): (r: real)
    requires 0.0 <= a && 0.0 <= b && a + b > 0.0
    ensures 0.0 <= r <= 1.0
    ensures r * (a + b) == a
  {
    a / (a + b)
  }

  lemma MulUnit(p: real, x: real)
    requires 0.0 <= p <= 1.0 && 0.0 <= x <= 1.0
    ensures 0.0 <= p * x <= x
  {
    MulNonNegative(1.0 - p, x);
    MulNonNegative(p, x);
    assert (1.0 - p) * x == x - p * x;
  }

  lemma MulNonNegative(a: real, b: real)
    requires a >= 0.0 && b >= 0.0
    ensures a * b >= 0.0
  {
  }

  lemma MulPositive(x: real, y: real)
    requires x > 0.0 && y > 0.0
    ensures x * y > 0.0
  {
  }

  lemma MulMonotonic(c: real, x: real, y: real)
    requires c >= 0.0 && x <= y
    ensures c * x <= c * y
  {
    MulNonNegative(c, y - x);
    assert c * (y - x) == c * y - c * x;
  }

  /** With every directional message at 0.5, the belief read off a message
      vector is its belief channel unchanged. */
  lemma {:induction false} OccupancyOfUniform(s: seq<real>)
    requires IsMessageVector(s)
    requires forall k :: 0 <= k < |s| - 1 ==> s[k] == 0.5
    ensures OccupancyOf(s) == s[|s| - 1]
  {
    var n := |s|;
    UniformPrefixProducts(s);
    var cs := Complement(s);
    var c := Prod(s[..n - 1]);
    var x := s[n - 1];
    assert s[..n - 1] == s[..|s| - 1] && cs[..n - 1] == cs[..|cs| - 1];
    assert Prod(s) == c * x;
    assert Prod(cs) == c * (1.0 - x);
    MessageVectorProducts(s);
    RatioOfProducts(Prod(s), Prod(cs), c, x);
  }

  lemma RatioOfProducts(a: real, b: real, c: real, x: real)
    requires c > 0.0 && 0.0 <= x <= 1.0
    requires a == c * x && b == c * (1.0 - x)
    ensures 0.0 <= a && 0.0 <= b && a + b > 0.0
    ensures Ratio(a, b) == x
  {
    MulNonNegative(c, x);
    MulNonNegative(c, 1.0 - x);
    assert a + b == c;
    var r := Ratio(a, b);
    assert r * c == x * c;
    MulCancel(r, x, c);
  }

  lemma MulCancel(r: real, x: real, c: real)
    requires c != 0.0 && r * c == x * c
    ensures r == x
  {
    assert (r - x) * c == 0.0;
  }

}
