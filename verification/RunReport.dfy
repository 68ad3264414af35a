/**
 * What an Actor run reports about itself: the OUTPUT record of hw-radar-run/v1
 * (src/hw_radar/acquisition/apify/contract.py:222-279).
 */
module RunReport {
  import opened Prelude

  const MAX_REPORTED_COUNT: nat := 100_000
  const MAX_RUN_ERRORS: nat := 50

  /** Which caps stopped the run while work remained. */
  datatype Limits = Limits(pages: bool, requests: bool, items: bool, time: bool, bytes: bool) {
    predicate Any() {
      pages || requests || items || time || bytes
    }
  }

  const NO_LIMITS := Limits(false, false, false, false, false)

  /** The Actor's own completeness evidence; a declared count is absent when the source declares none. */
  datatype Report = Report(
    complete: bool,
    truncated: bool,
    limits: Limits,
    pagesDeclared: Option<nat>,
    pagesFetched: nat,
    itemsDeclared: Option<nat>,
    itemsEmitted: nat)

  /** The eight fields a run is admitted for and must echo. */
  datatype QueryScope = QueryScope(
    siteKey: string, collectionScope: string, categoryHint: string,
    maxItems: nat, maxPages: nat, maxRequests: nat, maxBytes: nat, timeBudgetSecs: nat)

  type ErrorCode = string

  datatype Output = Output(
    schemaVersion: string,
    succeeded: bool,
    report: Report,
    queryScope: QueryScope,
    actorName: string,
    errors: seq<ErrorCode>)

  const RUN_SCHEMA_VERSION := "hw-radar-run/v1"

  predicate CountOk(count: Option<nat>) {
    count.Some? ==> count.value <= MAX_REPORTED_COUNT
  }

  /** The schema bounds a record can break beyond its version: the counts and the number of errors. */
  predicate SchemaValid(o: Output) {
    && CountOk(o.report.pagesDeclared) && CountOk(o.report.itemsDeclared)
    && o.report.pagesFetched <= MAX_REPORTED_COUNT && o.report.itemsEmitted <= MAX_REPORTED_COUNT
    && |o.errors| <= MAX_RUN_ERRORS
  }

  /**
   * What a report that describes its own collection satisfies: complete exactly when no limit and
   * no error, truncated exactly when a limit, the rows counted, and declared counts respected.
   */
  predicate Honest(o: Output, rows: nat) {
    && (o.report.complete <==> !o.report.limits.Any() && o.errors == [])
    && (o.report.truncated <==> o.report.limits.Any())
    && o.report.itemsEmitted == rows
    && (o.report.complete && o.report.itemsDeclared.Some? ==> rows == o.report.itemsDeclared.value)
    && (o.report.pagesDeclared.Some? ==> 1 <= o.report.pagesFetched <= Max(1, o.report.pagesDeclared.value))
    && (o.report.complete ==>
          o.report.pagesFetched >= 1
          && (o.report.pagesDeclared.Some? ==> o.report.pagesFetched >= o.report.pagesDeclared.value))
  }
}
