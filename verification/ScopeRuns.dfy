/**
 * What one multi-scope run does, from the keys it parsed and the reports it holds
 * (src/hw_radar/acquisition/pipeline.py:464-530).
 */
module ScopeRuns {
  import opened Prelude
  import opened Contracts
  import opened Persist
  import opened Stages
  import opened Pipeline
  import opened MultiScope
  import opened History
  import RemoteEvidence

  /** The reports of one run: each for its own scope, at the run's time. */
  ghost predicate OneRun(reports: seq<ScopeSweepReport>, at: Time) {
    && DistinctScopes(reports)
    && forall r :: r in reports ==> r.Valid() && (r.scope.Some? ==> r.scope.value.observedAt == at)
  }

  /** The context its reports share. */
  function ContextOf(parsed: set<Key>, reports: seq<ScopeSweepReport>, at: Time, nullPrevious: Option<Time>): RunContext {
    RunContext(at, SeenInRun(parsed, reports), NullSwept(reports), nullPrevious)
  }

  /** A key the run saw: parsed, or seen by any of its reports. */
  predicate Showed(parsed: set<Key>, reports: seq<ScopeSweepReport>, k: Key) {
    k in parsed || exists r :: r in reports && r.scope.Some? && k in r.scope.value.seen
  }

  /** What a complete report does to a listing of its scope that the run did not show. */
  predicate Settled(l: Listing, l': Listing, at: Time) {
    if l.delistedAt.None? && (l.lastObservedAt.Some? ==> l.lastObservedAt.value <= at)
    then l'.delistedAt == Some(at) && l'.delistReason == Some(AbsentFromSweep)
    else l' == l
  }

  lemma ReportMarks(db: Database, parsed: set<Key>, reports: seq<ScopeSweepReport>, at: Time, nullPrevious: Option<Time>, r: ScopeSweepReport, k: Key)
    requires OneRun(reports, at) && r in reports && r.scope.Some? && r.scope.value.complete
    requires k in db.listings && db.listings[k].scope == r.scopeKey && !Showed(parsed, reports, k)
    ensures var out := ApplyReports(db, reports, ContextOf(parsed, reports, at, nullPrevious));
            k in out.listings && Settled(db.listings[k], out.listings[k], at)
  {
    var run := ContextOf(parsed, reports, at, nullPrevious);
    ReportsActPerScope(db, reports, run);
    RemoteEvidence.ProofActs(db, ReportSweep(r, run));
  }

  /** A run leaves every key it showed alone, and a complete report marks what is left of its scope. */
  lemma RunMarks(db: Database, parsed: set<Key>, reports: seq<ScopeSweepReport>, at: Time, nullPrevious: Option<Time>)
    requires OneRun(reports, at)
    ensures var out := ApplyReports(db, reports, ContextOf(parsed, reports, at, nullPrevious));
            && out.listings.Keys == db.listings.Keys
            && (forall k :: k in db.listings && Showed(parsed, reports, k) ==> out.listings[k] == db.listings[k])
            && (forall r, k :: r in reports && r.scope.Some? && r.scope.value.complete && k in db.listings
                               && db.listings[k].scope == r.scopeKey && !Showed(parsed, reports, k) ==>
                  Settled(db.listings[k], out.listings[k], at))
  {
    var run := ContextOf(parsed, reports, at, nullPrevious);
    var out := ApplyReports(db, reports, run);
    ReportsActPerScope(db, reports, run);
    forall k | k in db.listings && Showed(parsed, reports, k) ensures out.listings[k] == db.listings[k] {
      SeenIsNeverDelisted(db, reports, run, k);
    }
    forall r, k | r in reports && r.scope.Some? && r.scope.value.complete && k in db.listings
                  && db.listings[k].scope == r.scopeKey && !Showed(parsed, reports, k)
      ensures Settled(db.listings[k], out.listings[k], at)
    {
      ReportMarks(db, parsed, reports, at, nullPrevious, r, k);
    }
  }

  /** The NULL lane ends as the NULL scope's own report leaves it; a run without one breaks it at the run's time. */
  lemma RunOwesNull(db: Database, parsed: set<Key>, reports: seq<ScopeSweepReport>, at: Time, nullPrevious: Option<Time>)
    requires OneRun(reports, at) && db.marks.lane.Some? && reports != []
    ensures var run := ContextOf(parsed, reports, at, nullPrevious);
            var lane := ApplyReports(db, reports, run).marks.lane;
            && (forall r :: r in reports && r.scopeKey.None? ==> lane == Apply(db, History.Swept(ReportSweep(r, run))).marks.lane)
            && ((forall r :: r in reports ==> r.scopeKey.Some?) ==>
                  && lane.Some? && lane.value.mark.continuousSince.None?
                  && lane.value.mark.lastEligibleAt == db.marks.lane.value.mark.lastEligibleAt
                  && lane.value.mark.brokenAt
                     == (if db.marks.lane.value.mark.brokenAt.Some? && db.marks.lane.value.mark.brokenAt.value >= at
                         then db.marks.lane.value.mark.brokenAt else Some(at)))
  {
    ReportsActPerScope(db, reports, ContextOf(parsed, reports, at, nullPrevious));
  }
}
