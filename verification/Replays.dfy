/**
 * What the snapshot history holds, and that importing a batch again, at any later time, adds nothing
 * to it and shows nothing else (src/hw_radar/acquisition/persist.py:222-313).
 */
module Replays {
  import opened Prelude
  import opened Contracts
  import opened Persist
  import opened Stages
  import opened PersistOrder
  import opened Pipeline
  import opened History
  import opened Clocks
  import opened OrderIndependence

  // ── An observation is dealt with once ─────────────────────────────────────

  /**
   * The observation of `s` is recorded; or its class is bounded and a newer absence has retired it,
   * so that its snapshot would be born past its deadline.
   */
  ghost predicate Settled(row: Option<Listing>, s: Stamp) {
    && row.Some?
    && (Recorded(row.value.history, s.observedAt)
        || (s.retention.retentionClass.Bounded() && s.retention.expiresAt.Some?
            && Before(s.observedAt, row.value.lastAbsenceAt)))
  }

  lemma ObserveSettles(m: Marks, row: Option<Listing>, r: Record, s: Stamp)
    requires AbsenceKept(row)
    ensures Settled(Some(ObserveRow(m, row, r, s)), s)
  {
    var bound := CompleteSweepAt(m, TargetScope(row, r));
    var mid := WriteCurrent(row, r, s, bound);
    if !Recorded(mid.history, s.observedAt) && |ObserveRow(m, row, r, s).history| > |mid.history| {
      assert ObserveRow(m, row, r, s).history[|mid.history|].observedAt == s.observedAt;
    }
  }

  lemma SettledStays(m: Marks, row: Option<Listing>, r: Record, other: Stamp, s: Stamp)
    requires AbsenceKept(row) && Settled(row, s)
    ensures Settled(Some(ObserveRow(m, row, r, other)), s)
  {
    ObserveRises(m, row, r, other);
    ObserveHistory(row, r, other, CompleteSweepAt(m, TargetScope(row, r)));
  }

  lemma {:induction false} FoldSettles(m: Marks, row: Option<Listing>, own: seq<Record>, other: Stamp, s: Stamp)
    requires AbsenceKept(row)
    requires Settled(row, s) || (own != [] && other == s)
    ensures Settled(RowFold(m, row, own, other), s)
  {
    if own != [] {
      var front, r := own[..|own| - 1], own[|own| - 1];
      FoldRises(m, row, front, other);
      if Settled(row, s) || front != [] {
        FoldSettles(m, row, front, other, s);
        SettledStays(m, RowFold(m, row, front, other), r, other, s);
      } else {
        ObserveSettles(m, row, r, s);
      }
    }
  }

  lemma MarkingKeepsInstants(l: Listing, reason: DelistReason, when: Time, at: Time)
    ensures Recorded(MarkDelisted(l, reason, when).history, at) <==> Recorded(l.history, at)
  {
    var before, after := l.history, MarkDelisted(l, reason, when).history;
    assert |before| == |after| && forall i :: 0 <= i < |before| ==> before[i].observedAt == after[i].observedAt;
  }

  /** Whatever commits after, a settled observation stays settled. */
  lemma EventSettles(db: Database, e: Event, k: Key, s: Stamp)
    requires AbsenceKept(Lookup(db.listings, k))
    requires Settled(Lookup(db.listings, k), s) || (e.Persisted? && e.stamp == s && Only(e.records, k) != [])
    ensures Settled(Lookup(Apply(db, e).listings, k), s)
  {
    match e
    case Persisted(records, stamp) =>
      var ready := db.(marks := EnsureRows(db.marks, TargetScopes(db.listings, records)));
      PersistBatchRow(ready, records, stamp, k);
      FoldSettles(ready.marks, Lookup(db.listings, k), Only(records, k), stamp, s);
    case Swept(sweep) =>
      SweepOnRow(db, CallOf(sweep), k);
      forall reason, when ensures Recorded(MarkDelisted(db.listings[k], reason, when).history, s.observedAt)
                                  <==> Recorded(db.listings[k].history, s.observedAt)
      {
        MarkingKeepsInstants(db.listings[k], reason, when, s.observedAt);
      }
    case _ =>
  }

  /** Every observation ever applied is settled in every later state. */
  lemma {:induction false} EveryObservationSettles(lane: Option<nat>, history: seq<Event>, k: Key, i: nat)
    requires i < |history| && history[i].Persisted? && Only(history[i].records, k) != []
    ensures Settled(Lookup(Replay(lane, history).listings, k), history[i].stamp)
  {
    var front := history[..|history| - 1];
    AbsenceIsKept(lane, front, k);
    if i < |front| {
      EveryObservationSettles(lane, front, k, i);
    }
    EventSettles(Replay(lane, front), history[|history| - 1], k, history[i].stamp);
  }

  // ── The history is what was observed ──────────────────────────────────────

  /** Some transaction reported this offer of the key at the snapshot's instant. */
  ghost predicate Reported(history: seq<Event>, k: Key, snapshot: Snapshot) {
    exists e, r :: e in history && Reports(e, r, k, snapshot)
  }

  predicate Reports(e: Event, r: Record, k: Key, snapshot: Snapshot) {
    e.Persisted? && r in Only(e.records, k) && e.stamp.observedAt == snapshot.observedAt && r.offer == snapshot.offer
  }

  lemma {:induction false} FoldReports(m: Marks, row: Option<Listing>, own: seq<Record>, s: Stamp, x: Snapshot)
    requires x in HistoryOf(RowFold(m, row, own, s))
    ensures x in HistoryOf(row) || (x.observedAt == s.observedAt && exists r :: r in own && r.offer == x.offer)
  {
    if own != [] {
      var front, r := own[..|own| - 1], own[|own| - 1];
      var mid := RowFold(m, row, front, s);
      ObserveHistory(mid, r, s, CompleteSweepAt(m, TargetScope(mid, r)));
      if x in HistoryOf(mid) {
        FoldReports(m, row, front, s, x);
      }
    }
  }

  lemma MarkingKeepsOffers(l: Listing, reason: DelistReason, when: Time, x: Snapshot)
    requires x in MarkDelisted(l, reason, when).history
    ensures exists y :: y in l.history && y.observedAt == x.observedAt && y.offer == x.offer
  {
    var i :| 0 <= i < |MarkDelisted(l, reason, when).history| && MarkDelisted(l, reason, when).history[i] == x;
    assert l.history[i] in l.history;
  }

  /** No snapshot is invented: each one is an offer that some transaction reported for that instant. */
  lemma {:induction false} SnapshotsWereReported(lane: Option<nat>, history: seq<Event>, k: Key, x: Snapshot)
    requires x in HistoryOf(Lookup(Replay(lane, history).listings, k))
    ensures Reported(history, k, x)
  {
    var front, e := history[..|history| - 1], history[|history| - 1];
    assert e in history && forall y :: y in front ==> y in history;
    var db := Replay(lane, front);
    if x in HistoryOf(Lookup(db.listings, k)) {
      SnapshotsWereReported(lane, front, k, x);
    } else if e.Persisted? {
      var ready := db.(marks := EnsureRows(db.marks, TargetScopes(db.listings, e.records)));
      PersistBatchRow(ready, e.records, e.stamp, k);
      FoldReports(ready.marks, Lookup(db.listings, k), Only(e.records, k), e.stamp, x);
      var r :| r in Only(e.records, k) && r.offer == x.offer;
      assert Reports(e, r, k, x);
    } else if e.Swept? {
      SweepOnRow(db, CallOf(e.sweep), k);
      var row := Lookup(db.listings, k).value;
      var reason :| Lookup(Apply(db, e).listings, k) == Some(MarkDelisted(row, reason, CallOf(e.sweep).gated.value.observedAt));
      MarkingKeepsOffers(row, reason, CallOf(e.sweep).gated.value.observedAt, x);
      var y :| y in row.history && y.observedAt == x.observedAt && y.offer == x.offer;
      SnapshotsWereReported(lane, front, k, y);
      var e', r :| e' in front && Reports(e', r, k, y);
      assert Reports(e', r, k, x);
    }
  }

  /**
   * The history holds only what was reported, and loses no observation whose retention class is
   * indefinite: one of a bounded class is missing only when a newer absence retired it.
   */
  lemma HistoryIsWhatWasObserved(lane: Option<nat>, history: seq<Event>, k: Key)
    ensures var row := Lookup(Replay(lane, history).listings, k);
            && (forall x :: x in HistoryOf(row) ==> Reported(history, k, x))
            && (forall e :: e in history && e.Persisted? && Only(e.records, k) != [] ==>
                  row.Some? && (Recorded(row.value.history, e.stamp.observedAt)
                                || (e.stamp.retention.retentionClass.Bounded()
                                    && Before(e.stamp.observedAt, row.value.lastAbsenceAt))))
  {
    var row := Lookup(Replay(lane, history).listings, k);
    forall x | x in HistoryOf(row) ensures Reported(history, k, x) {
      SnapshotsWereReported(lane, history, k, x);
    }
    forall e | e in history && e.Persisted? && Only(e.records, k) != [] ensures Settled(row, e.stamp) {
      var i :| 0 <= i < |history| && history[i] == e;
      EveryObservationSettles(lane, history, k, i);
    }
  }

  // ── Replays ───────────────────────────────────────────────────────────────

  lemma {:induction false} FoldAppendsNothing(m: Marks, row: Option<Listing>, own: seq<Record>, s: Stamp)
    requires AbsenceKept(row) && Settled(row, s) && AtMost(row.value.lastAbsenceAt, s.now)
    ensures var after := RowFold(m, row, own, s);
            && after.Some? && AbsenceKept(after) && Settled(after, s)
            && after.value.history == row.value.history && after.value.lastAbsenceAt == row.value.lastAbsenceAt
  {
    if own != [] {
      var front, r := own[..|own| - 1], own[|own| - 1];
      FoldAppendsNothing(m, row, front, s);
      ObserveRises(m, RowFold(m, row, front, s), r, s);
    }
  }

  /** The transaction that imports the batch again at `now`. */
  function Again(records: seq<Record>, s: Stamp, now: Time): Event {
    Persisted(records, s.(now := now))
  }

  /**
   * In every history, importing an applied batch again, once no sweep lies ahead of the clock, adds
   * no snapshot to any listing.
   */
  lemma ReplayAppendsNothing(lane: Option<nat>, history: seq<Event>, records: seq<Record>, s: Stamp, now: Time, k: Key)
    requires ValidHistory(history) && SweptBy(history, now) && Persisted(records, s) in history
    ensures HistoryOf(Lookup(Apply(Replay(lane, history), Again(records, s, now)).listings, k))
            == HistoryOf(Lookup(Replay(lane, history).listings, k))
  {
    var db := Replay(lane, history);
    var ready := db.(marks := EnsureRows(db.marks, TargetScopes(db.listings, records)));
    PersistBatchRow(ready, records, s.(now := now), k);
    if Only(records, k) != [] {
      var i :| 0 <= i < |history| && history[i] == Persisted(records, s);
      EveryObservationSettles(lane, history, k, i);
      AbsenceIsKept(lane, history, k);
      AbsenceIsSwept(lane, history, now, k);
      FoldAppendsNothing(ready.marks, Lookup(db.listings, k), Only(records, k), s.(now := now));
    }
  }

  /** What a transaction of an orderly history told the key's scope. */
  lemma {:induction false} OrderlyRecords(k: Key, scope: Option<ScopeKey>, history: seq<Event>, e: Event)
    requires Orderly(k, scope, history) && e in history && e.Persisted?
    ensures forall r :: r in Only(e.records, k) ==> KeepsScope(r, scope, true)
  {
    var front, last := history[..|history| - 1], history[|history| - 1];
    assert history == front + [last];
    if e in front {
      OrderlyRecords(k, scope, front, e);
    }
  }

  lemma SightedBy(history: seq<Event>, k: Key, e: Event)
    requires e in history && e.Persisted? && LastFor(e.records, k).Some?
    ensures Newest(history, k).Some? && e.stamp.observedAt <= Newest(history, k).value.at
  {
    NewestIsMaximum(history, k);
  }

  /** In every orderly history, importing an applied batch again, whenever it is, shows the same offers. */
  lemma ReplayKeepsTheView(k: Key, scope: Option<ScopeKey>, lane: Option<nat>, history: seq<Event>, records: seq<Record>, s: Stamp, now: Time)
    requires Orderly(k, scope, history) && HasMark(scope, lane) && Persisted(records, s) in history
    ensures View(Apply(Replay(lane, history), Again(records, s, now)), k) == View(Replay(lane, history), k)
  {
    var db, again, newest := Replay(lane, history), Again(records, s, now), Newest(history, k);
    GuardsAddUp(k, scope, lane, history);
    OrderlyRecords(k, scope, history, Persisted(records, s));
    if LastFor(records, k).Some? {
      SightedBy(history, k, Persisted(records, s));
      if newest.value.at == s.observedAt {
        NewestIsMaximum(history, k);
        var e :| e in history && Sights(e, k, newest.value);
        RunTimesAreDistinct(k, scope, history, e, Persisted(records, s));
      }
    }
    PersistMeans(db, again, k, scope, newest);
    assert Newer(newest, LastFor(records, k), again.stamp) == newest;
  }

  /** A newer observation of the key, or a newer complete sweep of its scope, has been applied. */
  predicate Superseded(k: Key, scope: Option<ScopeKey>, history: seq<Event>, at: Time) {
    Before(at, NewestSweep(history, scope)) || (Newest(history, k).Some? && at < Newest(history, k).value.at)
  }

  lemma {:induction false} FoldIsRefused(m: Marks, row: Listing, own: seq<Record>, s: Stamp, scope: Option<ScopeKey>)
    requires AbsenceKept(Some(row)) && Settled(Some(row), s) && AtMost(row.lastAbsenceAt, s.now)
    requires row.scope == scope && forall r :: r in own ==> KeepsScope(r, scope, true)
    requires !CurrentEligible(Some(row), s.observedAt, CompleteSweepAt(m, scope))
    ensures RowFold(m, Some(row), own, s) == Some(row)
  {
    if own != [] {
      var front, r := own[..|own| - 1], own[|own| - 1];
      assert r in own && forall x :: x in front ==> x in own;
      FoldIsRefused(m, row, front, s, scope);
      assert TargetScope(Some(row), r) == scope;
    }
  }

  lemma {:induction false} FoldRefreshes(m: Marks, row: Listing, own: seq<Record>, s: Stamp, scope: Option<ScopeKey>)
    requires own != [] && Recorded(row.history, s.observedAt)
    requires row.scope == scope && forall r :: r in own ==> KeepsScope(r, scope, true)
    requires CurrentEligible(Some(row), s.observedAt, CompleteSweepAt(m, scope))
    ensures RowFold(m, Some(row), own, s)
            == Some(row.(content := own[|own| - 1].content, retention := s.retention, lastObservedAt := Some(s.observedAt),
                         lastSeen := s.now, delistedAt := None, delistReason := None))
  {
    var front, r := own[..|own| - 1], own[|own| - 1];
    assert r in own && forall x :: x in front ==> x in own;
    if front == [] {
      assert RowFold(m, Some(row), front, s) == Some(row);
    } else {
      FoldRefreshes(m, row, front, s, scope);
    }
  }

  /** What importing the batch again does to one row: nothing behind newer evidence, else a fresh last-seen instant. */
  function Reseen(k: Key, scope: Option<ScopeKey>, history: seq<Event>, records: seq<Record>, s: Stamp, now: Time, row: Option<Listing>): Option<Listing> {
    if Only(records, k) == [] || Superseded(k, scope, history, s.observedAt) || row.None? then row
    else Some(row.value.(lastSeen := now))
  }

  /** In an orderly history the row of an applied observation that nothing supersedes shows that observation. */
  lemma ShowsTheNewest(k: Key, scope: Option<ScopeKey>, lane: Option<nat>, history: seq<Event>, records: seq<Record>, s: Stamp)
    requires Orderly(k, scope, history) && HasMark(scope, lane) && Persisted(records, s) in history
    requires LastFor(records, k).Some? && !Superseded(k, scope, history, s.observedAt)
    ensures var row := Lookup(Replay(lane, history).listings, k);
            && row.Some? && row.value.Active() && row.value.delistReason.None?
            && row.value.lastObservedAt == Some(s.observedAt)
            && row.value.content == LastFor(records, k).value.content && row.value.retention == s.retention
            && CurrentEligible(row, s.observedAt, CompleteSweepAt(Replay(lane, history).marks, scope))
  {
    GuardsAddUp(k, scope, lane, history);
    SightedBy(history, k, Persisted(records, s));
    NewestIsMaximum(history, k);
    var e :| e in history && Sights(e, k, Newest(history, k).value);
    RunTimesAreDistinct(k, scope, history, e, Persisted(records, s));
  }

  /**
   * Exactly what importing an applied batch again does to a row, in an orderly history and once no
   * sweep lies ahead of the clock.
   */
  lemma ReplayedRow(k: Key, scope: Option<ScopeKey>, lane: Option<nat>, history: seq<Event>, records: seq<Record>, s: Stamp, now: Time)
    requires ValidHistory(history) && SweptBy(history, now) && Persisted(records, s) in history
    requires Only(records, k) != [] ==> Orderly(k, scope, history) && HasMark(scope, lane)
    ensures var row := Lookup(Replay(lane, history).listings, k);
            && Lookup(Apply(Replay(lane, history), Again(records, s, now)).listings, k) == Reseen(k, scope, history, records, s, now, row)
            && (Only(records, k) != [] ==>
                  row.Some? && row.value.scope == scope && forall r :: r in Only(records, k) ==> KeepsScope(r, scope, true))
  {
    var db := Replay(lane, history);
    var ready := db.(marks := EnsureRows(db.marks, TargetScopes(db.listings, records)));
    PersistBatchRow(ready, records, s.(now := now), k);
    if Only(records, k) != [] {
      var i :| 0 <= i < |history| && history[i] == Persisted(records, s);
      EveryObservationSettles(lane, history, k, i);
      AbsenceIsKept(lane, history, k);
      AbsenceIsSwept(lane, history, now, k);
      GuardsAddUp(k, scope, lane, history);
      OrderlyRecords(k, scope, history, Persisted(records, s));
      EnsureRowDecidesNothing(db.marks, None, scope);
      if Superseded(k, scope, history, s.observedAt) {
        FoldIsRefused(ready.marks, db.listings[k], Only(records, k), s.(now := now), scope);
      } else {
        ShowsTheNewest(k, scope, lane, history, records, s);
        FoldRefreshes(ready.marks, db.listings[k], Only(records, k), s.(now := now), scope);
      }
    }
  }

  /**
   * In every orderly history, importing an applied batch again, once no sweep lies ahead of the clock,
   * touches no watermark and at most the last-seen instants of rows that nothing newer supersedes;
   * behind strictly newer evidence it changes nothing at all.
   */
  lemma ReplayChangesNothing(home: Key -> Option<ScopeKey>, lane: Option<nat>, history: seq<Event>, records: seq<Record>, s: Stamp, now: Time)
    requires ValidHistory(history) && SweptBy(history, now) && Persisted(records, s) in history
    requires forall r :: r in records ==> Orderly(r.key, home(r.key), history) && HasMark(home(r.key), lane)
    ensures var db, after := Replay(lane, history), Apply(Replay(lane, history), Again(records, s, now));
            && after.marks == db.marks
            && (forall k :: Lookup(after.listings, k) == Reseen(k, home(k), history, records, s, now, Lookup(db.listings, k)))
            && ((forall r :: r in records ==> Superseded(r.key, home(r.key), history, s.observedAt)) ==> after == db)
  {
    var db := Replay(lane, history);
    var after := Apply(db, Again(records, s, now));
    forall k ensures Lookup(after.listings, k) == Reseen(k, home(k), history, records, s, now, Lookup(db.listings, k))
             ensures Only(records, k) != [] ==> exists r :: r in records && r.key == k
    {
      OnlyIsDrawn(records, k);
      assert Only(records, k) != [] ==> Only(records, k)[0] in Only(records, k);
      ReplayedRow(k, home(k), lane, history, records, s, now);
    }
    TargetsHaveRows(home, lane, history, records, s, now);
    if forall r :: r in records ==> Superseded(r.key, home(r.key), history, s.observedAt) {
      SameRowsSameListings(after.listings, db.listings);
    }
  }

  lemma TargetsHaveRows(home: Key -> Option<ScopeKey>, lane: Option<nat>, history: seq<Event>, records: seq<Record>, s: Stamp, now: Time)
    requires ValidHistory(history) && SweptBy(history, now) && Persisted(records, s) in history
    requires forall r :: r in records ==> Orderly(r.key, home(r.key), history) && HasMark(home(r.key), lane)
    ensures var db := Replay(lane, history); EnsureRows(db.marks, TargetScopes(db.listings, records)) == db.marks
  {
    var db := Replay(lane, history);
    ScopesKeepRows(lane, history);
    forall r | r in records
      ensures var target := TargetScope(Lookup(db.listings, r.key), r); target.Some? ==> target.value in db.marks.scopes
    {
      OnlyHolds(records, r);
      ReplayedRow(r.key, home(r.key), lane, history, records, s, now);
    }
    assert EnsureRows(db.marks, TargetScopes(db.listings, records)).scopes == db.marks.scopes;
  }

  lemma {:induction false} OnlyIsDrawn(records: seq<Record>, k: Key)
    ensures forall r :: r in Only(records, k) ==> r in records && r.key == k
  {
    if records != [] {
      OnlyIsDrawn(records[..|records| - 1], k);
    }
  }

  lemma {:induction false} OnlyHolds(records: seq<Record>, r: Record)
    requires r in records
    ensures r in Only(records, r.key)
  {
    var front, last := records[..|records| - 1], records[|records| - 1];
    assert records == front + [last];
    if r in front {
      OnlyHolds(front, r);
    }
  }
}
