/** What a sweep and a collection run claim (src/hw_radar/acquisition/contracts.py). */
module Contracts {
  import opened Prelude

  type Key = string
  type ScopeKey = string

  /** What one sweep proves about the listings it did not contain. */
  datatype DelistScope = DelistScope(
    seen: set<Key>,
    observedAt: Time,
    complete: bool,
    grace: Duration,
    scopeKey: Option<ScopeKey>,
    staleAllowed: bool)

  datatype ProviderKind = Local | Remote

  datatype Completeness = Complete | Truncated | PartialFailure | Failed

  /** What one run proves about its own completeness. */
  datatype Evidence = Evidence(kind: ProviderKind, completeness: Completeness, staleEligible: bool) {
    /** Only a local provider may be stale-absence eligible. */
    predicate Valid() {
      staleEligible ==> kind.Local?
    }
  }

  /** One collection scope a multi-scope local run swept. */
  datatype ScopeSweepReport = ScopeSweepReport(scopeKey: Option<ScopeKey>, scope: Option<DelistScope>) {
    predicate Valid() {
      scope.Some? ==> scope.value.scopeKey == scopeKey
    }
  }
}
