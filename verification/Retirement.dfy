/**
 * What absence does to the content a listing keeps: redaction, and deadlines pulled forward and never
 * extended (src/hw_radar/catalog/models/market.py:349-417, src/hw_radar/acquisition/persist.py:283-313).
 */
module Retirement {
  import opened Prelude
  import opened Contracts
  import opened Persist
  import opened Stages
  import opened PersistOrder
  import opened Pipeline
  import opened History
  import opened Clocks
  import opened Continuity
  import opened RemoteEvidence

  /** The classes whose content must go at a deadline, and the one whose merchant content goes with the offer. */
  const BOUNDED_CLASSES: set<RetentionClass> :=
    {EbayListingObservation, AmazonEphemeral, TransientDiscovery, AvailabilityHeartbeat, AvailabilityHeartbeatEvent}

  lemma BoundedIsListed(c: RetentionClass)
    ensures c.Bounded() <==> c in BOUNDED_CLASSES
    ensures c.DeleteOnDelist() <==> c == EbayListingObservation
  {
  }

  predicate ExpiresBy(r: Retention, at: Time) {
    r.retentionClass in BOUNDED_CLASSES && r.expiresAt.Some? ==> r.expiresAt.value <= at
  }

  /** The same retention, or one pulled forward to `at`; nothing is ever extended. */
  predicate PulledOnly(before: Retention, after: Retention, at: Time) {
    if before.retentionClass in BOUNDED_CLASSES && before.expiresAt.Some? && before.expiresAt.value > at
    then after == Retention(before.retentionClass, Some(at)) else after == before
  }

  predicate IsBlank(c: Content) {
    c.url == "" && c.title == "" && c.condition == ""
  }

  /**
   * What a refuted listing loses: merchant content exactly when its class goes with the offer, and the
   * deadlines of a bounded listing and of its bounded snapshots come forward to the sweep; an
   * indefinite listing keeps all of it.
   */
  lemma RefutedRowIsRetired(db: Database, s: Sweep, k: Key)
    requires s.Valid() && Proves(s) && k in db.listings && Unseen(k, db.listings[k], s)
    ensures var l, l' := db.listings[k], Apply(db, Swept(s)).listings[k];
            && (if l.retention.retentionClass == EbayListingObservation then IsBlank(l'.content) && l'.content.international == l.content.international
                else l'.content == l.content)
            && PulledOnly(l.retention, l'.retention, s.at)
            && |l'.history| == |l.history|
            && forall i :: 0 <= i < |l.history| ==>
                 && l'.history[i].observedAt == l.history[i].observedAt && l'.history[i].offer == l.history[i].offer
                 && (if l.retention.retentionClass in BOUNDED_CLASSES then PulledOnly(l.history[i].retention, l'.history[i].retention, s.at)
                     else l'.history[i] == l.history[i])
  {
    ProofActs(db, s);
    SweepOnRow(db, CallOf(s), k);
    CallIsValid(s);
    BoundedIsListed(db.listings[k].retention.retentionClass);
  }

  /** The newer of two absence stamps. */
  function NewerOf(a: Option<Time>, b: Option<Time>): Option<Time> {
    if a.None? || (b.Some? && b.value > a.value) then b else a
  }

  /** The absence that already retired an observation at `at`: the scope's complete sweep for a key never seen, else the row's own. */
  function RetiredBy(row: Option<Listing>, at: Time, swept: Option<Time>): Option<Time> {
    var absence := if row.None? then swept else NewerOf(row.value.lastAbsenceAt, row.value.delistedAt);
    if absence.Some? && absence.value > at then absence else None
  }

  /**
   * What an observation adds to the history: nothing for an instant already there, nor for bounded
   * content whose deadline, its own or the absence that retired it, has passed; else one snapshot of
   * the offer, expiring at the sooner of those.
   */
  lemma SnapshotExactlyWhen(m: Marks, row: Option<Listing>, r: Record, s: Stamp)
    ensures var before, after := HistoryOf(row), ObserveRow(m, row, r, s).history;
            var absence := RetiredBy(row, s.observedAt, CompleteSweepAt(m, TargetScope(row, r)));
            var deadline := s.retention.expiresAt;
            after
            == if exists i :: 0 <= i < |before| && before[i].observedAt == s.observedAt then before
               else if s.retention.retentionClass in BOUNDED_CLASSES && absence.Some? && deadline.Some? then
                 if deadline.value <= s.now || absence.value <= s.now then before
                 else before + [Snapshot(s.observedAt, r.offer,
                                         Retention(s.retention.retentionClass, Some(if absence.value < deadline.value then absence.value else deadline.value)))]
               else before + [Snapshot(s.observedAt, r.offer, s.retention)]
  {
    BoundedIsListed(s.retention.retentionClass);
    var mid := WriteCurrent(row, r, s, CompleteSweepAt(m, TargetScope(row, r)));
    assert mid.history == HistoryOf(row);
  }

  // ── In every reachable state ──────────────────────────────────────────────

  /** Every observation of the key so far carries this retention class. */
  ghost predicate AllOfClass(history: seq<Event>, k: Key, c: RetentionClass) {
    forall e :: e in history && e.Persisted? && Only(e.records, k) != [] ==> e.stamp.retention.retentionClass == c
  }

  /**
   * A delisted row is blank if its class goes with the offer, and expires by its delisting; and a
   * snapshot that a newer absence overtook expires by that absence.
   */
  ghost predicate Retired(row: Option<Listing>, c: RetentionClass) {
    row.Some? ==>
      var l := row.value;
      && l.retention.retentionClass == c
      && (l.delistedAt.Some? ==> ExpiresBy(l.retention, l.delistedAt.value) && (c == EbayListingObservation ==> IsBlank(l.content)))
      && forall i :: 0 <= i < |l.history| ==>
           && l.history[i].retention.retentionClass == c
           && (Before(l.history[i].observedAt, l.lastAbsenceAt) ==> ExpiresBy(l.history[i].retention, l.lastAbsenceAt.value))
  }

  lemma MarkingRetires(l: Listing, c: RetentionClass, reason: DelistReason, when: Time)
    requires Retired(Some(l), c)
    ensures Retired(Some(MarkDelisted(l, reason, when)), c)
  {
    BoundedIsListed(c);
  }

  lemma ObserveRetires(m: Marks, row: Option<Listing>, r: Record, s: Stamp, c: RetentionClass)
    requires AbsenceKept(row) && Retired(row, c) && s.retention.retentionClass == c
    ensures Retired(Some(ObserveRow(m, row, r, s)), c)
  {
    BoundedIsListed(c);
    var bound := CompleteSweepAt(m, TargetScope(row, r));
    var mid := WriteCurrent(row, r, s, bound);
    if row.None? {
      assert Retired(Some(Created(r, s)), c);
      if bound.Some? { MarkingRetires(Created(r, s), c, AbsentFromSweep, bound.value); }
    }
    assert Retired(Some(mid), c);
    var after := ObserveRow(m, row, r, s);
    assert after.(history := mid.history) == mid;
    assert forall i :: 0 <= i < |mid.history| ==> after.history[i] == mid.history[i];
  }

  lemma {:induction false} FoldRetires(m: Marks, row: Option<Listing>, own: seq<Record>, s: Stamp, c: RetentionClass)
    requires AbsenceKept(row) && Retired(row, c) && (own != [] ==> s.retention.retentionClass == c)
    ensures Retired(RowFold(m, row, own, s), c)
  {
    if own != [] {
      FoldRetires(m, row, own[..|own| - 1], s, c);
      FoldRises(m, row, own[..|own| - 1], s);
      ObserveRetires(m, RowFold(m, row, own[..|own| - 1], s), own[|own| - 1], s, c);
    }
  }

  lemma EventRetires(db: Database, e: Event, k: Key, c: RetentionClass)
    requires AbsenceKept(Lookup(db.listings, k)) && Retired(Lookup(db.listings, k), c)
    requires e.Persisted? && Only(e.records, k) != [] ==> e.stamp.retention.retentionClass == c
    ensures Retired(Lookup(Apply(db, e).listings, k), c)
  {
    match e
    case Persisted(records, stamp) =>
      var ready := db.(marks := EnsureRows(db.marks, TargetScopes(db.listings, records)));
      PersistBatchRow(ready, records, stamp, k);
      FoldRetires(ready.marks, Lookup(db.listings, k), Only(records, k), stamp, c);
    case Swept(sweep) =>
      SweepOnRow(db, CallOf(sweep), k);
      if Lookup(Apply(db, e).listings, k) != Lookup(db.listings, k) {
        var reason :| Lookup(Apply(db, e).listings, k)
                      == Some(MarkDelisted(db.listings[k], reason, CallOf(sweep).gated.value.observedAt));
        MarkingRetires(db.listings[k], c, reason, CallOf(sweep).gated.value.observedAt);
      }
    case _ =>
  }

  /** In every history, whatever the order of arrival, absence retires what it overtook. */
  lemma {:induction false} AbsenceRetires(lane: Option<nat>, history: seq<Event>, k: Key, c: RetentionClass)
    requires AllOfClass(history, k, c)
    ensures Retired(Lookup(Replay(lane, history).listings, k), c)
  {
    if history != [] {
      var front, e := history[..|history| - 1], history[|history| - 1];
      assert e in history && forall x :: x in front ==> x in history;
      AbsenceRetires(lane, front, k, c);
      AbsenceIsKept(lane, front, k);
      EventRetires(Replay(lane, front), e, k, c);
    }
  }
}
