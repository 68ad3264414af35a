/** The completeness gate between a run and the delist stage (src/hw_radar/acquisition/providers.py). */
module Providers {
  import opened Prelude
  import opened Contracts

  /** The delist scope a run is entitled to act on, or None for none. */
  function GateDelistScope(scope: Option<DelistScope>, evidence: Evidence): Option<DelistScope> {
    if scope.None? then None
    else if evidence.completeness.Complete? then
      if scope.value.complete || (evidence.staleEligible && scope.value.staleAllowed) then scope else None
    else if evidence.completeness.Truncated? && evidence.staleEligible && scope.value.staleAllowed then
      Some(scope.value.(complete := false))
    else None
  }

  /** Whether a FULL run extends the polling-continuity window of its scope. */
  predicate CountsTowardSweepContinuity(evidence: Evidence, scope: Option<DelistScope>) {
    if evidence.kind.Local? then
      evidence.completeness.Complete? || (evidence.completeness.Truncated? && evidence.staleEligible)
    else
      evidence.completeness.Complete? && scope.Some? && scope.value.complete
  }

  /** The evidence a local provider records for a FULL run. */
  function LocalEvidence(scope: Option<DelistScope>): (e: Evidence)
    ensures e.Valid()
  {
    Evidence(Local, if scope.Some? && scope.value.complete then Complete else Truncated, true)
  }

  /** The gate never strengthens a claim, and what it lets through incomplete opted in to stale absence. */
  lemma GateNeverStrengthens(scope: Option<DelistScope>, evidence: Evidence)
    requires evidence.Valid()
    ensures var gated := GateDelistScope(scope, evidence);
            gated.Some? ==>
              && scope.Some?
              && gated.value == scope.value.(complete := gated.value.complete)
              && (gated.value.complete ==> scope.value.complete && evidence.completeness.Complete?)
              && (!gated.value.complete ==> scope.value.staleAllowed && evidence.kind.Local?)
  {
  }

  /**
   * On every local path the gate is the identity, except that a scope which opted out of stale
   * absence and is not complete is dropped; every local FULL run counts as polling, and it is recorded
   * complete exactly where its adapter claims so.
   */
  lemma LocalGateIsIdentity(scope: Option<DelistScope>)
    ensures GateDelistScope(scope, LocalEvidence(scope))
            == if scope.Some? && !scope.value.complete && !scope.value.staleAllowed then None else scope
    ensures CountsTowardSweepContinuity(LocalEvidence(scope), scope)
    ensures LocalEvidence(scope).completeness.Complete? <==> scope.Some? && scope.value.complete
  {
  }
}
