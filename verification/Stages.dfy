/**
 * The transactional ingestion stages on database values (src/hw_radar/acquisition/stages.py).
 *
 * A site's rows are a value of type Database; SiteStore.dfy holds the methods that change them in
 * place and proves each one equal to the function given here.
 */
module Stages {
  import opened Prelude
  import opened Contracts
  import opened Persist

  /** A scope's watermark row; the FULL lane row carries the same four columns for the NULL scope. */
  datatype Watermark = Watermark(
    completeSweepAt: Option<Time>,
    continuousSince: Option<Time>,
    lastEligibleAt: Option<Time>,
    brokenAt: Option<Time>)

  const BLANK := Watermark(None, None, None, None)

  datatype Lane = Lane(intervalS: nat, mark: Watermark)

  datatype Marks = Marks(scopes: map<ScopeKey, Watermark>, lane: Option<Lane>)

  datatype Database = Database(listings: map<Key, Listing>, marks: Marks)

  // ── Watermark rows ────────────────────────────────────────────────────────

  /** Create the watermark row of a scope if it is missing. */
  function EnsureRow(m: Marks, scope: Option<ScopeKey>): Marks {
    if scope.Some? && scope.value !in m.scopes then m.(scopes := m.scopes[scope.value := BLANK]) else m
  }

  function EnsureRows(m: Marks, scopes: set<ScopeKey>): Marks {
    m.(scopes := (map s | s in scopes :: BLANK) + m.scopes)
  }

  /** The newest complete sweep of a scope; a missing row reads as no bound. */
  function CompleteSweepAt(m: Marks, scope: Option<ScopeKey>): Option<Time> {
    if scope.None? then
      if m.lane.None? then None else m.lane.value.mark.completeSweepAt
    else if scope.value in m.scopes then m.scopes[scope.value].completeSweepAt
    else None
  }

  // ── Persist ───────────────────────────────────────────────────────────────

  /** The scope an observation targets: its own, else the one its row already has. */
  function TargetScope(existing: Option<Listing>, r: Record): Option<ScopeKey> {
    if r.scope.None? && existing.Some? then existing.value.scope else r.scope
  }

  /** One record applied to the row of its own key. */
  function ObserveRow(m: Marks, existing: Option<Listing>, r: Record, s: Stamp): Listing {
    Observe(existing, r, s, CompleteSweepAt(m, TargetScope(existing, r)))
  }

  function ObserveRecord(db: Database, r: Record, s: Stamp): Database {
    db.(listings := db.listings[r.key := ObserveRow(db.marks, Lookup(db.listings, r.key), r, s)])
  }

  /** The simple form of persisting a batch: each record observed in turn, left to right. */
  function PersistBatch(db: Database, records: seq<Record>, s: Stamp): (r: Database)
    ensures r.marks == db.marks
  {
    if records == [] then db
    else ObserveRecord(PersistBatch(db, records[..|records| - 1], s), records[|records| - 1], s)
  }

  /** Every non-NULL scope a batch's observations target. */
  function TargetScopes(listings: map<Key, Listing>, records: seq<Record>): set<ScopeKey> {
    set r | r in records && TargetScope(Lookup(listings, r.key), r).Some? ::
      TargetScope(Lookup(listings, r.key), r).value
  }

  /** The persist step as its own transaction: the watermark rows are ensured first. */
  function PersistLocal(db: Database, records: seq<Record>, s: Stamp): Database {
    PersistBatch(db.(marks := EnsureRows(db.marks, TargetScopes(db.listings, records))), records, s)
  }

  // ── Continuity ────────────────────────────────────────────────────────────

  const MIN_CONTINUITY_TOLERANCE: Duration := 15 * MINUTE

  function Tolerance(lane: Option<Lane>): Duration {
    Max(2 * (if lane.None? then 0 else lane.value.intervalS) * SECOND, MIN_CONTINUITY_TOLERANCE)
  }

  /** Whether an eligible sweep at `at` is refused by the row: at or before a break, or out of order. */
  predicate SweepRefused(w: Watermark, at: Time) {
    || (w.brokenAt.Some? && at <= w.brokenAt.value)
    || (w.lastEligibleAt.Some? && at < w.lastEligibleAt.value)
  }

  /** Fold one eligible sweep into a continuity row. */
  function RecordOnRow(w: Watermark, at: Time, previous: Option<Time>, tolerance: Duration): Watermark {
    if SweepRefused(w, at) then w
    else
      w.(continuousSince :=
           if w.continuousSince.None? || previous.None? || at - previous.value > tolerance
           then Some(at) else w.continuousSince,
         lastEligibleAt := Some(at))
  }

  function BreakRow(w: Watermark, at: Time): Watermark {
    w.(continuousSince := None, brokenAt := Raised(w.brokenAt, at))
  }

  function RaiseRow(w: Watermark, at: Time): Watermark {
    w.(completeSweepAt := Raised(w.completeSweepAt, at))
  }

  /** The watermark row of a scope, when it exists. */
  function RowOf(m: Marks, scope: Option<ScopeKey>): Option<Watermark> {
    if scope.None? then (if m.lane.None? then None else Some(m.lane.value.mark))
    else Lookup(m.scopes, scope.value)
  }

  function WithRow(m: Marks, scope: Option<ScopeKey>, w: Watermark): Marks {
    if scope.None? then
      if m.lane.None? then m else m.(lane := Some(m.lane.value.(mark := w)))
    else m.(scopes := m.scopes[scope.value := w])
  }

  /**
   * Record one eligible sweep of a scope. For the NULL scope the predecessor is the site's newest
   * earlier successful FULL run, read from the run table by the caller; a non-NULL scope reads only
   * its own row.
   */
  function RecordContinuity(m: Marks, scope: Option<ScopeKey>, at: Time, nullPrevious: Option<Time>): (Marks, Option<Time>)
    requires scope.Some? ==> scope.value in m.scopes
  {
    var row := RowOf(m, scope);
    if row.None? || SweepRefused(row.value, at) then (m, None)
    else
      var w := RecordOnRow(row.value, at, if scope.None? then nullPrevious else row.value.lastEligibleAt,
                           Tolerance(m.lane));
      (WithRow(m, scope, w), w.continuousSince)
  }

  function BreakContinuity(m: Marks, scope: Option<ScopeKey>, at: Time): Marks
    requires scope.Some? ==> scope.value in m.scopes
  {
    var row := RowOf(m, scope);
    if row.None? then m else WithRow(m, scope, BreakRow(row.value, at))
  }

  // ── Absence ───────────────────────────────────────────────────────────────

  /** What a gated scope may mark: nothing, or a reason with an optional last-seen cutoff. */
  datatype Verdict = Nothing | Mark(reason: DelistReason, cutoff: Option<Time>)

  function DelistVerdict(scope: DelistScope, continuousSince: Option<Time>): Verdict {
    if scope.complete then Mark(AbsentFromSweep, None)
    else if !scope.staleAllowed then Nothing
    else if continuousSince.None? || scope.observedAt - continuousSince.value < scope.grace then Nothing
    else Mark(AbsentStale, Some(scope.observedAt - scope.grace))
  }

  /** The rows the sweep contradicts: active, in its scope, unseen, and not observed by a newer run. */
  predicate Candidate(k: Key, l: Listing, scope: DelistScope, cutoff: Option<Time>) {
    && l.Active()
    && k !in scope.seen
    && (l.lastObservedAt.None? || l.lastObservedAt.value <= scope.observedAt)
    && l.scope == scope.scopeKey
    && (cutoff.Some? ==> l.lastSeen < cutoff.value)
  }

  predicate Contradicted(k: Key, l: Listing, scope: DelistScope, verdict: Verdict) {
    verdict.Mark? && Candidate(k, l, scope, verdict.cutoff)
  }

  function DelistRow(k: Key, l: Listing, scope: DelistScope, verdict: Verdict): Listing {
    if Contradicted(k, l, scope, verdict) then MarkDelisted(l, verdict.reason, scope.observedAt) else l
  }

  function DelistListings(listings: map<Key, Listing>, scope: DelistScope, verdict: Verdict): map<Key, Listing> {
    map k | k in listings :: DelistRow(k, listings[k], scope, verdict)
  }

  function DelistedKeys(listings: map<Key, Listing>, scope: DelistScope, verdict: Verdict): set<Key> {
    set k | k in listings && Contradicted(k, listings[k], scope, verdict)
  }

  /** One absence transaction, as its caller parameterizes it. */
  datatype AbsenceCall = AbsenceCall(
    swept: Option<ScopeKey>,
    eligible: bool,
    gated: Option<DelistScope>,
    at: Time,
    nullScopeSwept: bool,
    nullPrevious: Option<Time>)
  {
    /** A gated scope is the swept scope. */
    predicate Valid() {
      gated.Some? ==> gated.value.scopeKey == swept
    }
  }

  /** The continuity half: record or break the swept scope, then break the NULL scope if owed. */
  function ContinuityStep(m: Marks, call: AbsenceCall): (r: (Marks, Option<Time>))
    requires call.swept.Some? ==> call.swept.value in m.scopes
    ensures call.swept.Some? ==> call.swept.value in r.0.scopes
  {
    var (m1, since) :=
      if call.eligible then RecordContinuity(m, call.swept, call.at, call.nullPrevious)
      else (BreakContinuity(m, call.swept, call.at), None);
    (if call.swept.Some? && !call.nullScopeSwept then BreakContinuity(m1, None, call.at) else m1, since)
  }

  function RaiseCompleteSweep(m: Marks, gated: DelistScope): Marks {
    var row := RowOf(m, gated.scopeKey);
    if row.None? then m else WithRow(m, gated.scopeKey, RaiseRow(row.value, gated.observedAt))
  }

  function VerdictOf(m: Marks, call: AbsenceCall): Verdict
    requires call.gated.Some?
    requires call.swept.Some? ==> call.swept.value in m.scopes
  {
    DelistVerdict(call.gated.value, ContinuityStep(m, call).1)
  }

  /** Record or break continuity for the swept scope, then apply the gated delist. */
  function ApplyAbsence(db: Database, call: AbsenceCall): Database
    requires call.swept.Some? ==> call.swept.value in db.marks.scopes
  {
    var m := ContinuityStep(db.marks, call).0;
    if call.gated.None? then db.(marks := m)
    else
      Database(DelistListings(db.listings, call.gated.value, VerdictOf(db.marks, call)),
               if call.gated.value.complete then RaiseCompleteSweep(m, call.gated.value) else m)
  }

  /** The absence step as its own transaction: the row is ensured first. */
  function AbsenceLocal(db: Database, call: AbsenceCall): Database {
    ApplyAbsence(db.(marks := EnsureRow(db.marks, call.swept)), call)
  }

  /** How many listings an absence step delists. */
  function DelistCount(db: Database, call: AbsenceCall): nat {
    if call.gated.None? then 0
    else |DelistedKeys(db.listings, call.gated.value, VerdictOf(EnsureRow(db.marks, call.swept), call))|
  }

  function Inactive(listings: map<Key, Listing>): set<Key> {
    set k | k in listings && !listings[k].Active()
  }

  /** The count an absence step reports is exactly how many listings it turned inactive. */
  lemma DelistCountIsGrowth(db: Database, call: AbsenceCall)
    ensures |Inactive(AbsenceLocal(db, call).listings)| == |Inactive(db.listings)| + DelistCount(db, call)
  {
    var after := AbsenceLocal(db, call).listings;
    if call.gated.Some? {
      var verdict := VerdictOf(EnsureRow(db.marks, call.swept), call);
      var marked := DelistedKeys(db.listings, call.gated.value, verdict);
      assert after.Keys == db.listings.Keys;
      assert Inactive(after) == Inactive(db.listings) + marked;
      assert Inactive(db.listings) !! marked;
    }
  }

  /** Creating an all-NULL row early decides nothing: every guard that reads it is unchanged. */
  lemma EnsureRowDecidesNothing(m: Marks, scope: Option<ScopeKey>, other: Option<ScopeKey>)
    ensures CompleteSweepAt(EnsureRow(m, scope), other) == CompleteSweepAt(m, other)
    ensures forall scopes :: CompleteSweepAt(EnsureRows(m, scopes), other) == CompleteSweepAt(m, other)
  {
  }
}
