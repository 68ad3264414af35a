/**
 * One run that sweeps several scopes ends, scope by scope, where each report alone would leave it
 * (src/hw_radar/acquisition/pipeline.py:464-530).
 */
module MultiScope {
  import opened Prelude
  import opened Contracts
  import opened Providers
  import opened Persist
  import opened Stages
  import opened Pipeline

  /** What the pipeline guarantees of the reports it applies together. */
  ghost predicate ReportsOfRun(reports: seq<ScopeSweepReport>, run: RunContext) {
    && DistinctScopes(reports)
    && (forall r :: r in reports ==>
          && r.Valid()
          && (r.scope.Some? ==> r.scope.value.observedAt == run.at)
          && (r.scopeKey.None? ==> run.nullScopeSwept))
  }

  predicate Swept(reports: seq<ScopeSweepReport>, scope: Option<ScopeKey>) {
    exists r :: r in reports && r.scopeKey == scope
  }

  /** Every listing and row of a reported scope is as its own report alone leaves it; the rest is untouched. */
  ghost predicate ListingsPerScope(db: Database, reports: seq<ScopeSweepReport>, run: RunContext, out: Database) {
    && out.listings.Keys == db.listings.Keys
    && (forall k :: k in db.listings && !Swept(reports, db.listings[k].scope) ==> out.listings[k] == db.listings[k])
    && (forall r, k :: r in reports && k in db.listings && db.listings[k].scope == r.scopeKey ==>
          out.listings[k] == AbsenceLocal(db, ReportCall(r, run)).listings[k])
  }

  ghost predicate RowsPerScope(db: Database, reports: seq<ScopeSweepReport>, run: RunContext, out: Database) {
    && IntervalOf(out.marks) == IntervalOf(db.marks)
    && (forall x: ScopeKey :: !Swept(reports, Some(x)) ==> RowOf(out.marks, Some(x)) == RowOf(db.marks, Some(x)))
    && (forall r :: r in reports && r.scopeKey.Some? ==>
          RowOf(out.marks, r.scopeKey) == RowOf(AbsenceLocal(db, ReportCall(r, run)).marks, r.scopeKey))
  }

  /** The NULL lane ends as the NULL report alone leaves it; unswept, it takes exactly one break. */
  ghost predicate LanePerScope(db: Database, reports: seq<ScopeSweepReport>, run: RunContext, out: Database) {
    && (forall r :: r in reports && r.scopeKey.None? ==>
          out.marks.lane == AbsenceLocal(db, ReportCall(r, run)).marks.lane)
    && (!Swept(reports, None) ==>
          out.marks.lane == if run.nullScopeSwept || reports == [] then db.marks.lane
                            else BreakContinuity(db.marks, None, run.at).lane)
  }

  ghost predicate PerScope(db: Database, reports: seq<ScopeSweepReport>, run: RunContext, out: Database) {
    ListingsPerScope(db, reports, run, out) && RowsPerScope(db, reports, run, out) && LanePerScope(db, reports, run, out)
  }

  /** Reports do not interfere: the fold ends as the per-scope closed form, whatever the order. */
  lemma {:induction false} ReportsActPerScope(db: Database, reports: seq<ScopeSweepReport>, run: RunContext)
    requires ReportsOfRun(reports, run)
    ensures PerScope(db, reports, run, ApplyReports(db, reports, run))
  {
    if reports != [] {
      var front, r := reports[..|reports| - 1], reports[|reports| - 1];
      assert reports == front + [r];
      ReportsActPerScope(db, front, run);
      LastIsNew(reports);
      OneMoreReport(db, front, r, run, ApplyReports(db, front, run));
    }
  }

  lemma OneMoreReport(db: Database, front: seq<ScopeSweepReport>, r: ScopeSweepReport, run: RunContext, mid: Database)
    requires ReportsOfRun(front + [r], run) && !Swept(front, r.scopeKey)
    requires PerScope(db, front, run, mid)
    ensures PerScope(db, front + [r], run, AbsenceLocal(mid, ReportCall(r, run)))
  {
    var out := AbsenceLocal(mid, ReportCall(r, run));
    assert r in front + [r] && forall x :: x in front ==> x in front + [r];
    OwnScopeUntouched(db, front, run, mid, r);
    AbsenceLocality(mid, db, ReportCall(r, run));
    IntervalKept(mid, ReportCall(r, run));
    ListingsStep(db, front, r, run, mid, out);
    RowsStep(db, front, r, run, mid, out);
    LaneStep(db, front, r, run, mid, out);
  }

  lemma IntervalKept(db: Database, call: AbsenceCall)
    requires call.Valid()
    ensures IntervalOf(AbsenceLocal(db, call).marks) == IntervalOf(db.marks)
  {
    AbsenceFrame(db, call);
  }

  lemma LastIsNew(reports: seq<ScopeSweepReport>)
    requires DistinctScopes(reports) && reports != []
    ensures !Swept(reports[..|reports| - 1], reports[|reports| - 1].scopeKey)
  {
  }

  /** Before its turn, a report's own scope is as the run found it. */
  lemma OwnScopeUntouched(db: Database, front: seq<ScopeSweepReport>, run: RunContext, mid: Database, r: ScopeSweepReport)
    requires PerScope(db, front, run, mid) && !Swept(front, r.scopeKey)
    requires r.scopeKey.None? ==> run.nullScopeSwept
    requires forall x :: x in front ==> x.Valid()
    ensures forall k :: k in db.listings && db.listings[k].scope == r.scopeKey ==> mid.listings[k] == db.listings[k]
    ensures forall k :: k in db.listings ==> mid.listings[k].scope == db.listings[k].scope
    ensures RowOf(mid.marks, r.scopeKey) == RowOf(db.marks, r.scopeKey)
  {
    forall k | k in db.listings ensures mid.listings[k].scope == db.listings[k].scope { ScopeStays(db, front, run, mid, k); }
  }

  /** No report moves a listing to another scope. */
  lemma ScopeStays(db: Database, front: seq<ScopeSweepReport>, run: RunContext, mid: Database, k: Key)
    requires ListingsPerScope(db, front, run, mid) && k in db.listings && forall x :: x in front ==> x.Valid()
    ensures mid.listings[k].scope == db.listings[k].scope
  {
    if Swept(front, db.listings[k].scope) {
      var x :| x in front && x.scopeKey == db.listings[k].scope;
      ReportKeepsScope(db, ReportCall(x, run), k);
    }
  }

  lemma ReportKeepsScope(db: Database, call: AbsenceCall, k: Key)
    requires k in db.listings
    ensures AbsenceLocal(db, call).listings[k].scope == db.listings[k].scope
  {
  }

  lemma ListingsStep(db: Database, front: seq<ScopeSweepReport>, r: ScopeSweepReport, run: RunContext, mid: Database, out: Database)
    requires ListingsPerScope(db, front, run, mid) && !Swept(front, r.scopeKey) && r.Valid()
    requires out == AbsenceLocal(mid, ReportCall(r, run))
    requires forall k :: k in db.listings ==> mid.listings[k].scope == db.listings[k].scope
    requires forall k :: k in db.listings && db.listings[k].scope == r.scopeKey ==>
               out.listings[k] == AbsenceLocal(db, ReportCall(r, run)).listings[k]
    ensures ListingsPerScope(db, front + [r], run, out)
  {
    AbsenceFrame(mid, ReportCall(r, run));
    assert forall s :: Swept(front + [r], s) ==> Swept(front, s) || s == r.scopeKey;
    assert r in front + [r] && forall x :: x in front ==> x in front + [r];
  }

  lemma RowsStep(db: Database, front: seq<ScopeSweepReport>, r: ScopeSweepReport, run: RunContext, mid: Database, out: Database)
    requires RowsPerScope(db, front, run, mid) && !Swept(front, r.scopeKey) && r.Valid()
    requires out == AbsenceLocal(mid, ReportCall(r, run))
    requires RowOf(out.marks, r.scopeKey) == RowOf(AbsenceLocal(db, ReportCall(r, run)).marks, r.scopeKey)
    ensures RowsPerScope(db, front + [r], run, out)
  {
    AbsenceFrame(mid, ReportCall(r, run));
    assert r in front + [r] && forall x :: x in front ==> x in front + [r];
    forall x: ScopeKey | !Swept(front + [r], Some(x))
      ensures RowOf(out.marks, Some(x)) == RowOf(db.marks, Some(x))
    {
      assert !Swept(front, Some(x)) && Some(x) != r.scopeKey;
    }
  }

  lemma LaneStep(db: Database, front: seq<ScopeSweepReport>, r: ScopeSweepReport, run: RunContext, mid: Database, out: Database)
    requires LanePerScope(db, front, run, mid) && IntervalOf(mid.marks) == IntervalOf(db.marks)
    requires !Swept(front, r.scopeKey) && r.Valid()
    requires forall x :: x in front + [r] ==> x.Valid() && (x.scopeKey.None? ==> run.nullScopeSwept)
    requires out == AbsenceLocal(mid, ReportCall(r, run))
    requires RowOf(out.marks, r.scopeKey) == RowOf(AbsenceLocal(db, ReportCall(r, run)).marks, r.scopeKey)
    ensures LanePerScope(db, front + [r], run, out)
  {
    AbsenceFrame(mid, ReportCall(r, run));
    AbsenceFrame(db, ReportCall(r, run));
    assert r in front + [r] && forall x :: x in front ==> x in front + [r];
    assert Swept(front + [r], None) <==> Swept(front, None) || r.scopeKey.None?;
    if r.scopeKey.None? {
      forall x | x in front + [r] && x.scopeKey.None? ensures x == r {
        assert x in front ==> Swept(front, None);
      }
    }
  }

  /**
   * Order independence: any two orders of the same reports leave the same database, and each
   * report delists the same number of listings it would delist alone.
   */
  lemma OrderDoesNotMatter(db: Database, a: seq<ScopeSweepReport>, b: seq<ScopeSweepReport>, run: RunContext)
    requires ReportsOfRun(a, run) && ReportsOfRun(b, run)
    requires forall r :: r in a <==> r in b
    ensures ApplyReports(db, a, run) == ApplyReports(db, b, run)
  {
    ReportsActPerScope(db, a, run);
    ReportsActPerScope(db, b, run);
    PerScopeDetermines(db, a, b, run, ApplyReports(db, a, run), ApplyReports(db, b, run));
  }

  /** The per-scope closed form leaves one database, and reads the reports as a set. */
  lemma PerScopeDetermines(db: Database, a: seq<ScopeSweepReport>, b: seq<ScopeSweepReport>, run: RunContext, x: Database, y: Database)
    requires forall r :: r in a <==> r in b
    requires PerScope(db, a, run, x) && PerScope(db, b, run, y)
    ensures x == y
  {
    SameListings(db, a, b, run, x, y);
    forall s: ScopeKey { SameRow(db, a, b, run, x, y, s); }
    SameRowsSameScopes(x.marks.scopes, y.marks.scopes);
    SameLane(db, a, b, run, x, y);
  }

  lemma SameListings(db: Database, a: seq<ScopeSweepReport>, b: seq<ScopeSweepReport>, run: RunContext, x: Database, y: Database)
    requires forall r :: r in a <==> r in b
    requires ListingsPerScope(db, a, run, x) && ListingsPerScope(db, b, run, y)
    ensures x.listings == y.listings
  {
    SameSwept(a, b);
    forall k | k in db.listings ensures x.listings[k] == y.listings[k] {
      if Swept(a, db.listings[k].scope) {
        var r :| r in a && r.scopeKey == db.listings[k].scope;
        assert r in b;
      }
    }
  }

  lemma SameLane(db: Database, a: seq<ScopeSweepReport>, b: seq<ScopeSweepReport>, run: RunContext, x: Database, y: Database)
    requires forall r :: r in a <==> r in b
    requires LanePerScope(db, a, run, x) && LanePerScope(db, b, run, y)
    ensures x.marks.lane == y.marks.lane
  {
    SameSwept(a, b);
    if Swept(a, None) {
      var r :| r in a && r.scopeKey == None;
      assert r in b && r.scopeKey.None?;
    }
  }

  lemma SameSwept(a: seq<ScopeSweepReport>, b: seq<ScopeSweepReport>)
    requires forall r :: r in a <==> r in b
    ensures forall s :: Swept(a, s) <==> Swept(b, s)
    ensures a == [] <==> b == []
  {
    if a != [] { assert a[0] in b; }
    if b != [] { assert b[0] in a; }
  }

  lemma SameRow(db: Database, a: seq<ScopeSweepReport>, b: seq<ScopeSweepReport>, run: RunContext, x: Database, y: Database, s: ScopeKey)
    requires forall r :: r in a <==> r in b
    requires RowsPerScope(db, a, run, x) && RowsPerScope(db, b, run, y)
    ensures Lookup(x.marks.scopes, s) == Lookup(y.marks.scopes, s)
  {
    SameSwept(a, b);
    assert RowOf(x.marks, Some(s)) == RowOf(y.marks, Some(s)) by {
      if Swept(a, Some(s)) {
        var r :| r in a && r.scopeKey == Some(s);
        assert r in b;
      }
    }
  }

  lemma SameRowsSameScopes(a: map<ScopeKey, Watermark>, b: map<ScopeKey, Watermark>)
    requires forall s :: Lookup(a, s) == Lookup(b, s)
    ensures a == b
  {
    forall s ensures s in a <==> s in b { assert Lookup(a, s) == Lookup(b, s); }
    forall s | s in a ensures a[s] == b[s] { assert Lookup(a, s) == Lookup(b, s); }
  }

  /** Each report delists exactly what it would delist as the first of the run. */
  lemma EachReportCountsAlone(db: Database, reports: seq<ScopeSweepReport>, i: nat, run: RunContext)
    requires ReportsOfRun(reports, run) && i < |reports|
    ensures DelistCount(ApplyReports(db, reports[..i], run), ReportCall(reports[i], run))
            == DelistCount(db, ReportCall(reports[i], run))
  {
    var front, r := reports[..i], reports[i];
    ReportsActPerScope(db, front, run);
    LastIsNew(reports[..i + 1]);
    assert reports[..i + 1][..i] == front;
    OwnScopeUntouched(db, front, run, ApplyReports(db, front, run), r);
    AbsenceLocality(ApplyReports(db, front, run), db, ReportCall(r, run));
  }

  /** No listing seen anywhere in a run is delisted by any scope of that run. */
  lemma {:induction false} SeenIsNeverDelisted(db: Database, reports: seq<ScopeSweepReport>, run: RunContext, k: Key)
    requires ReportsOfRun(reports, run) && k in run.seen && k in db.listings
    ensures var out := ApplyReports(db, reports, run); k in out.listings && out.listings[k] == db.listings[k]
  {
    if reports != [] {
      var front := reports[..|reports| - 1];
      SeenIsNeverDelisted(db, front, run, k);
    }
  }
}
