/** The 2x2 pairwise potential psi[m_i, m_j] that couples neighbouring
    cells, and the three ways the source builds it. */
module Potential {

  /** `psi[m_i, m_j]` for the states 0 (free) and 1 (occupied). */
  datatype Psi = Psi(p00: real, p01: real, p10: real, p11: real)

  /** `psi[mi, mj]` on the states 0 and 1. */
  function Entry(psi: Psi, mi: int, mj: int): real
    requires 0 <= mi <= 1 && 0 <= mj <= 1
  {
    if mi == 0 then (if mj == 0 then psi.p00 else psi.p01)
    else (if mj == 0 then psi.p10 else psi.p11)
  }

  predicate IsSymmetric(psi: Psi) { psi.p01 == psi.p10 }

  /** Each row of the matrix is a distribution over the neighbour's state. */
  predicate IsRowStochastic(psi: Psi) {
    psi.p00 + psi.p01 == 1.0 && psi.p10 + psi.p11 == 1.0
  }

  predicate IsPositive(psi: Psi) {
    0.0 < psi.p00 && 0.0 < psi.p01 && 0.0 < psi.p10 && 0.0 < psi.p11
  }

  /** The uniform potential of the "equal" correlation type. */
  const EqualPsi := Psi(0.5, 0.5, 0.5, 0.5)

  /** The fixed potential of the "biased" correlation type. */
  const BiasedPsi := Psi(0.7, 0.3, 0.3, 0.7)

  /** The adaptive potential built from `e = exp(-p)`: `1/(1+e)` on the
      diagonal and `e/(1+e)` off it. */
  function FromExp(e: real): (psi: Psi)
    requires e > 0.0
    ensures IsSymmetric(psi) && IsRowStochastic(psi) && IsPositive(psi)
    ensures psi.p00 == psi.p11 && psi.p00 < 1.0 && psi.p01 < 1.0
    ensures psi.p00 * (1.0 + e) == 1.0 && psi.p01 * (1.0 + e) == e
  {
    var d := 1.0 / (1.0 + e);
    var o := e / (1.0 + e);
    assert d + o == 1.0;
    Psi(d, o, o, d)
  }

  /** Both fixed potentials are symmetric, row-stochastic and positive, like
      every adaptive one. */
  lemma {:induction false} FixedPotentialsWellFormed()
    ensures IsSymmetric(EqualPsi) && IsRowStochastic(EqualPsi) && IsPositive(EqualPsi)
    ensures IsSymmetric(BiasedPsi) && IsRowStochastic(BiasedPsi) && IsPositive(BiasedPsi)
    ensures EqualPsi.p00 == EqualPsi.p01
    ensures BiasedPsi.p00 > BiasedPsi.p01
  {
  }

  /** A positive correlation (e = exp(-p) < 1) favours equal neighbouring
      states, a negative one (e > 1) unequal ones, and no correlation
      (e == 1) gives the uniform potential. */
  lemma {:induction false} FromExpOrdering(e: real)
    requires e > 0.0
    ensures e < 1.0 ==> FromExp(e).p00 > FromExp(e).p01
    ensures e > 1.0 ==> FromExp(e).p00 < FromExp(e).p01
    ensures e == 1.0 ==> FromExp(e) == EqualPsi
  {
    var psi := FromExp(e);
    assert psi.p01 == e * psi.p00 by {
      assert psi.p01 * (1.0 + e) == e * (psi.p00 * (1.0 + e));
      CancelPositive(psi.p01, e * psi.p00, 1.0 + e);
    }
    if e < 1.0 {
      assert psi.p00 - psi.p01 == (1.0 - e) * psi.p00;
      PositiveProduct(1.0 - e, psi.p00);
    } else if e > 1.0 {
      assert psi.p01 - psi.p00 == (e - 1.0) * psi.p00;
      PositiveProduct(e - 1.0, psi.p00);
    }
  }

  lemma CancelPositive(a: real, b: real, c: real)
    requires c > 0.0 && a * c == b * c
    ensures a == b
  {
  }

  lemma PositiveProduct(x: real, y: real)
    requires x > 0.0 && y > 0.0
    ensures x * y > 0.0
  {
  }
}
