/**
 * How one FULL run turns its sweeps into absence transactions
 * (src/hw_radar/acquisition/pipeline.py:386-401, 460-530).
 */
module Pipeline {
  import opened Prelude
  import opened Contracts
  import opened Providers
  import opened Persist
  import opened Stages

  /** One swept scope of one run: its evidence, the scope it claims, and the run it belongs to. */
  datatype Sweep = Sweep(
    evidence: Evidence,
    scope: Option<DelistScope>,
    swept: Option<ScopeKey>,
    at: Time,
    seenInRun: set<Key>,
    nullScopeSwept: bool,
    nullPrevious: Option<Time>)
  {
    /** What the contracts and the run loop guarantee of every sweep they hand to the delist stage. */
    predicate Valid() {
      && evidence.Valid()
      && (scope.Some? ==> scope.value.scopeKey == swept && scope.value.observedAt == at)
      && (evidence.kind.Remote? ==> seenInRun == {} && !nullScopeSwept)
    }
  }

  function WidenSeen(gated: Option<DelistScope>, seen: set<Key>): Option<DelistScope> {
    if gated.None? then None else Some(gated.value.(seen := gated.value.seen + seen))
  }

  /** The absence call of one sweep; a sweep that saw nothing never vouches for a non-NULL scope. */
  function CallOf(s: Sweep): AbsenceCall {
    AbsenceCall(
      s.swept,
      CountsTowardSweepContinuity(s.evidence, s.scope) && (s.scope.Some? || s.swept.None?),
      WidenSeen(GateDelistScope(s.scope, s.evidence), s.seenInRun),
      s.at,
      s.nullScopeSwept,
      s.nullPrevious)
  }

  /** What every report of one multi-scope run shares. */
  datatype RunContext = RunContext(at: Time, seen: set<Key>, nullScopeSwept: bool, nullPrevious: Option<Time>)

  function ReportSweep(r: ScopeSweepReport, run: RunContext): Sweep {
    Sweep(LocalEvidence(r.scope), r.scope, r.scopeKey, run.at, run.seen, run.nullScopeSwept, run.nullPrevious)
  }

  function ReportCall(r: ScopeSweepReport, run: RunContext): AbsenceCall {
    CallOf(ReportSweep(r, run))
  }

  /** Apply the reports of one run, left to right. */
  function ApplyReports(db: Database, reports: seq<ScopeSweepReport>, run: RunContext): Database {
    if reports == [] then db
    else AbsenceLocal(ApplyReports(db, reports[..|reports| - 1], run), ReportCall(reports[|reports| - 1], run))
  }

  function SeenInRun(parsed: set<Key>, reports: seq<ScopeSweepReport>): set<Key> {
    parsed + set r, k | r in reports && r.scope.Some? && k in r.scope.value.seen :: k
  }

  predicate NullSwept(reports: seq<ScopeSweepReport>) {
    exists r :: r in reports && r.scopeKey.None?
  }

  ghost predicate DistinctScopes(reports: seq<ScopeSweepReport>) {
    forall i, j :: 0 <= i < j < |reports| ==> reports[i].scopeKey != reports[j].scopeKey
  }

  /** The NULL scope first, then scope keys ascending. */
  predicate ReportLe(a: ScopeSweepReport, b: ScopeSweepReport) {
    a.scopeKey.None? || (b.scopeKey.Some? && StringLe(a.scopeKey.value, b.scopeKey.value))
  }

  // ── What one absence transaction reads and writes ─────────────────────────

  function IntervalOf(m: Marks): Option<nat> {
    if m.lane.None? then None else Some(m.lane.value.intervalS)
  }

  /** The lane after one absence call of a non-NULL scope. */
  function LaneAfter(m: Marks, call: AbsenceCall): Option<Lane> {
    if call.nullScopeSwept then m.lane else BreakContinuity(m, None, call.at).lane
  }

  /** The continuity half writes the row of its own scope, and the lane only by the NULL break it owes. */
  lemma ContinuityFrame(m: Marks, call: AbsenceCall)
    requires call.swept.Some? ==> call.swept.value in m.scopes
    ensures var m' := ContinuityStep(m, call).0;
            && (forall x: ScopeKey :: Some(x) != call.swept ==> RowOf(m', Some(x)) == RowOf(m, Some(x)))
            && IntervalOf(m') == IntervalOf(m)
            && (call.swept.Some? ==> m'.lane == LaneAfter(m, call))
  {
  }

  /** And never a complete-sweep watermark. */
  lemma ContinuityKeepsSweeps(m: Marks, call: AbsenceCall, scope: Option<ScopeKey>)
    requires call.swept.Some? ==> call.swept.value in m.scopes
    ensures CompleteSweepAt(ContinuityStep(m, call).0, scope) == CompleteSweepAt(m, scope)
  {
  }

  /** Frame: an absence transaction leaves every other scope's rows and listings alone. */
  lemma AbsenceFrame(db: Database, call: AbsenceCall)
    requires call.Valid()
    ensures var db' := AbsenceLocal(db, call);
            && db'.listings.Keys == db.listings.Keys
            && (forall k :: k in db.listings ==> db'.listings[k].scope == db.listings[k].scope)
            && (forall k :: k in db.listings && db.listings[k].scope != call.swept ==> db'.listings[k] == db.listings[k])
            && (forall x: ScopeKey :: Some(x) != call.swept ==> RowOf(db'.marks, Some(x)) == RowOf(db.marks, Some(x)))
            && IntervalOf(db'.marks) == IntervalOf(db.marks)
            && (call.swept.Some? ==> db'.marks.lane == LaneAfter(db.marks, call))
  {
    var m := EnsureRow(db.marks, call.swept);
    ContinuityFrame(m, call);
    assert LaneAfter(m, call) == LaneAfter(db.marks, call);
  }

  /** The continuity half of a call reads its own row and the lane interval, nothing else. */
  lemma ContinuityLocality(a: Marks, b: Marks, call: AbsenceCall)
    requires call.swept.Some? ==> call.swept.value in a.scopes && call.swept.value in b.scopes
    requires RowOf(a, call.swept) == RowOf(b, call.swept) && IntervalOf(a) == IntervalOf(b)
    ensures RowOf(ContinuityStep(a, call).0, call.swept) == RowOf(ContinuityStep(b, call).0, call.swept)
    ensures ContinuityStep(a, call).1 == ContinuityStep(b, call).1
  {
    assert Tolerance(a.lane) == Tolerance(b.lane);
  }

  /** The row a raised watermark leaves is a function of the row before it. */
  lemma RaiseLocality(a: Marks, b: Marks, gated: DelistScope)
    requires RowOf(a, gated.scopeKey) == RowOf(b, gated.scopeKey)
    ensures RowOf(RaiseCompleteSweep(a, gated), gated.scopeKey) == RowOf(RaiseCompleteSweep(b, gated), gated.scopeKey)
  {
  }

  /** A scope has a complete-sweep watermark: its own row, or for the NULL scope the site's FULL lane. */
  predicate HasMark<L>(scope: Option<ScopeKey>, lane: Option<L>) {
    scope.Some? || lane.Some?
  }

  /** A call raises the complete-sweep watermark of its own scope, and only when its gated scope is complete. */
  lemma SweepRaisesOwnMark(m: Marks, call: AbsenceCall, scope: Option<ScopeKey>)
    requires call.Valid()
    ensures var after := AbsenceLocal(Database(map[], m), call).marks;
            var w := CompleteSweepAt(m, scope);
            CompleteSweepAt(after, scope)
            == if call.gated.Some? && call.gated.value.complete && call.swept == scope && HasMark(scope, m.lane)
               then Raised(w, call.gated.value.observedAt) else w
  {
    var ready := EnsureRow(m, call.swept);
    ContinuityKeepsSweeps(ready, call, scope);
    EnsureRowDecidesNothing(m, call.swept, scope);
    ContinuityFrame(ready, call);
  }

  /** Locality: what it does to its own scope depends only on that scope's rows and the lane interval. */
  lemma AbsenceLocality(a: Database, b: Database, call: AbsenceCall)
    requires call.Valid()
    requires a.listings.Keys == b.listings.Keys
    requires forall k :: k in a.listings ==> a.listings[k].scope == b.listings[k].scope
    requires forall k :: k in a.listings && a.listings[k].scope == call.swept ==> a.listings[k] == b.listings[k]
    requires RowOf(a.marks, call.swept) == RowOf(b.marks, call.swept)
    requires IntervalOf(a.marks) == IntervalOf(b.marks)
    ensures var a', b' := AbsenceLocal(a, call), AbsenceLocal(b, call);
            && RowOf(a'.marks, call.swept) == RowOf(b'.marks, call.swept)
            && (forall k :: k in a.listings && a.listings[k].scope == call.swept ==> a'.listings[k] == b'.listings[k])
    ensures DelistCount(a, call) == DelistCount(b, call)
  {
    var ma, mb := EnsureRow(a.marks, call.swept), EnsureRow(b.marks, call.swept);
    assert RowOf(ma, call.swept) == RowOf(mb, call.swept);
    ContinuityLocality(ma, mb, call);
    if call.gated.Some? {
      var gated, verdict := call.gated.value, VerdictOf(ma, call);
      RaiseLocality(ContinuityStep(ma, call).0, ContinuityStep(mb, call).0, gated);
      SameDelisted(a.listings, b.listings, gated, verdict);
    }
  }

  lemma SameDelisted(a: map<Key, Listing>, b: map<Key, Listing>, gated: DelistScope, verdict: Verdict)
    requires a.Keys == b.Keys
    requires forall k :: k in a ==> a[k].scope == b[k].scope
    requires forall k :: k in a && a[k].scope == gated.scopeKey ==> a[k] == b[k]
    ensures DelistedKeys(a, gated, verdict) == DelistedKeys(b, gated, verdict)
    ensures forall k :: k in a && a[k].scope == gated.scopeKey ==>
              DelistListings(a, gated, verdict)[k] == DelistListings(b, gated, verdict)[k]
  {
  }
}
