/** `OccupancyMap.pairwise_potential`, which both mappers define in the same
    way: a fixed potential for "equal" and "biased", and otherwise the
    adaptive potential of the last observations. */
module Pairwise {
  import opened Common
  import opened Grids
  import opened Potential
  import TestingHelper

  /** `pairwise_potential(correlation_type)`; `lastObservations` is `None`
      while it is still the empty 1-D `np.array([])` of the constructor,
      whose shape cannot be unpacked into rows and columns. */
  function PairwisePotential(correlationType: Option<string>, lastObservations: Option<seq<seq<int>>>,
                             sqrt: real -> real, exp: real -> real): (r: Result<Psi>)
    requires lastObservations.Some? ==> IsRect(lastObservations.value)
    requires forall t :: exp(t) > 0.0
    ensures correlationType == Some("equal") ==> r == Ok(EqualPsi)
    ensures correlationType == Some("biased") ==> r == Ok(BiasedPsi)
    ensures correlationType != Some("equal") && correlationType != Some("biased") && lastObservations.None? ==>
              r == Err(ValueError)
    ensures correlationType != Some("equal") && correlationType != Some("biased") && lastObservations.Some? ==>
              r == Ok(TestingHelper.AdaptiveWeightsMatrix(lastObservations.value, sqrt, exp))
    ensures r.Ok? ==> IsSymmetric(r.value) && IsRowStochastic(r.value) && IsPositive(r.value)
  {
    if correlationType == Some("equal") then Ok(EqualPsi)
    else if correlationType == Some("biased") then Ok(BiasedPsi)
    else if lastObservations.None? then Err(ValueError)
    else Ok(TestingHelper.AdaptiveWeightsMatrix(lastObservations.value, sqrt, exp))
  }
}
